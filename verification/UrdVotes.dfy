/** The votes on one block inside a shard (core/hotstuff/height_datas.go). Signatures are checked by a library; the
    aggregated one is a parameter. */
module UrdVotes {
  import opened Bytes
  import opened UrdTypes
  import W = PyramidVotes

  datatype Vote = Vote(index: nat, view: int, round: int, forHash: Bytes, ok: bool, data: seq<Bytes>)

  /** The votes of a view and round, and the weights that accept and reject. */
  datatype Ballot = Ballot(view: int, round: int, hash: Bytes, votes: map<nat, Vote>, accepting: nat, rejecting: nat)

  function NewBallot(view: int, hash: Bytes): Ballot {
    Ballot(view, 0, hash, map[], 0, 0)
  }

  /** The vote is for this ballot, and the first of its validator. */
  predicate Counts(w: seq<nat>, b: Ballot, v: Vote) {
    v.index < |w| && v.view == b.view && v.round == b.round && v.forHash == b.hash && v.index !in b.votes
  }

  /** addVote; a vote that does not count is an error. */
  function Cast(w: seq<nat>, b: Ballot, v: Vote): Ballot {
    if !Counts(w, b, v) then b
    else b.(votes := b.votes[v.index := v],
            accepting := b.accepting + if v.ok then w[v.index] else 0,
            rejecting := b.rejecting + if v.ok then 0 else w[v.index])
  }

  /** Two thirds of the weight, rounded down. */
  function Needed(w: seq<nat>): nat {
    2 * W.Total(w) / 3
  }

  predicate IsQuorum(w: seq<nat>, b: Ballot) {
    b.accepting >= Needed(w) || b.rejecting >= Needed(w)
  }

  function Voters(b: Ballot, ok: bool): set<nat> {
    set i | i in b.votes && b.votes[i].ok == ok
  }

  /** The two totals are the weights of those who accept and reject. */
  ghost predicate IsBallot(w: seq<nat>, b: Ballot) {
    && (forall i :: i in b.votes ==> i < |w| && b.votes[i].index == i && b.votes[i].view == b.view && b.votes[i].round == b.round && b.votes[i].forHash == b.hash)
    && b.accepting == W.Weight(w, Voters(b, true)) && b.rejecting == W.Weight(w, Voters(b, false))
  }

  lemma NewIsBallot(w: seq<nat>, view: int, hash: Bytes)
    ensures IsBallot(w, NewBallot(view, hash))
  {
    assert Voters(NewBallot(view, hash), true) == {} && Voters(NewBallot(view, hash), false) == {};
    W.WeightOfNone(w, |w|);
  }

  lemma CastKeepsBallot(w: seq<nat>, b: Ballot, v: Vote)
    requires IsBallot(w, b)
    ensures IsBallot(w, Cast(w, b, v))
    ensures IsQuorum(w, b) ==> IsQuorum(w, Cast(w, b, v))
  {
    if Counts(w, b, v) {
      var b' := Cast(w, b, v);
      assert Voters(b', v.ok) == Voters(b, v.ok) + {v.index};
      assert Voters(b', !v.ok) == Voters(b, !v.ok);
      W.WeightOfOneMore(w, Voters(b, v.ok), v.index, |w|);
    }
  }

  function CastAll(w: seq<nat>, b: Ballot, vs: seq<Vote>): Ballot
    decreases |vs|
  {
    if vs == [] then b else Cast(w, CastAll(w, b, Front(vs)), Last(vs))
  }

  /** Vote k is by validator i on the block, in round 0. */
  predicate IsVoteOf(vs: seq<Vote>, k: nat, view: int, hash: Bytes, i: nat)
    requires k < |vs|
  {
    vs[k].index == i && vs[k].view == view && vs[k].round == 0 && vs[k].forHash == hash
  }

  /** Whatever votes arrive, each validator's first vote on the block counts, and nothing else does; the two totals are the
      weights of those who accept and reject. */
  lemma {:induction false} FirstVotesCount(w: seq<nat>, view: int, hash: Bytes, vs: seq<Vote>, i: nat)
    ensures var b := CastAll(w, NewBallot(view, hash), vs);
            && b.view == view && b.round == 0 && b.hash == hash && IsBallot(w, b)
            && (i in b.votes <==> i < |w| && exists k :: 0 <= k < |vs| && IsVoteOf(vs, k, view, hash, i))
            && forall k :: 0 <= k < |vs| && IsVoteOf(vs, k, view, hash, i) && i < |w| &&
                           (forall j :: 0 <= j < k ==> !IsVoteOf(vs, j, view, hash, i)) ==>
                 i in b.votes && b.votes[i] == vs[k]
    decreases |vs|
  {
    hide IsBallot;
    if vs == [] {
      NewIsBallot(w, view, hash);
    } else {
      var m := |vs| - 1;
      FirstVotesCount(w, view, hash, Front(vs), i);
      CastKeepsBallot(w, CastAll(w, NewBallot(view, hash), Front(vs)), vs[m]);
      assert forall k :: 0 <= k < m ==> Front(vs)[k] == vs[k];
      assert forall k :: 0 <= k < m ==> (IsVoteOf(Front(vs), k, view, hash, i) <==> IsVoteOf(vs, k, view, hash, i));
      if i in CastAll(w, NewBallot(view, hash), vs).votes && i !in CastAll(w, NewBallot(view, hash), Front(vs)).votes {
        assert IsVoteOf(vs, m, view, hash, i);
      }
    }
  }

  /** The leader's own vote on the block it proposes. */
  function OwnVote(me: nat, view: int, hash: Bytes, lastHash: Bytes): Vote {
    Vote(me, view, 0, hash, true, [lastHash])
  }

  /** A proposer's own vote is a quorum exactly when its weight is two thirds rounded down. */
  lemma OwnVoteIsQuorumIff(w: seq<nat>, me: nat, view: int, hash: Bytes, lastHash: Bytes)
    requires me < |w|
    ensures IsQuorum(w, Cast(w, NewBallot(view, hash), OwnVote(me, view, hash, lastHash))) <==> w[me] >= Needed(w)
  {
  }

  // ----- the aggregated vote -----

  /** The data of the last validator below n that voted. */
  function LastData(votes: map<nat, Vote>, n: nat): seq<Bytes> {
    if n == 0 then [] else if n - 1 in votes then votes[n - 1].data else LastData(votes, n - 1)
  }

  /** getMaj23 */
  function Maj23(w: seq<nat>, b: Ballot, sign: Bytes, signers: Bytes): Option<AggVote> {
    if IsQuorum(w, b) then Some(AggVote(b.accepting >= Needed(w), b.view, b.round, b.hash, LastData(b.votes, |w|), sign, signers))
    else None
  }

  lemma {:induction false} DataOfAll(votes: map<nat, Vote>, n: nat, lastHash: Bytes)
    requires forall i :: i in votes ==> votes[i].data == [lastHash]
    requires exists i :: i in votes && i < n
    ensures LastData(votes, n) == [lastHash]
  {
    if n - 1 !in votes {
      var i :| i in votes && i < n;
      assert i < n - 1;
      DataOfAll(votes, n - 1, lastHash);
    }
  }

  /** If every voter names the hash of the block before, the aggregated vote carries it. */
  lemma AggregatedCarries(w: seq<nat>, b: Ballot, lastHash: Bytes, sign: Bytes, signers: Bytes)
    requires IsBallot(w, b) && b.votes != map[] && forall i :: i in b.votes ==> b.votes[i].data == [lastHash]
    ensures var agg := Maj23(w, b, sign, signers);
            agg.Some? ==> agg.value.forHash == b.hash && LastHash(agg.value) == lastHash
  {
    var i :| i in b.votes;
    DataOfAll(b.votes, |w|, lastHash);
  }

  lemma {:induction false} DataIsOfLast(votes: map<nat, Vote>, n: nat, i: nat)
    requires i in votes && i < n && forall j :: i < j < n ==> j !in votes
    ensures LastData(votes, n) == votes[i].data
  {
    if i < n - 1 { DataIsOfLast(votes, n - 1, i); }
  }

  /** There is an aggregated vote exactly when those who accept, or those who reject, weigh two thirds rounded down. It is on
      the ballot's block, view and round, accepts exactly when those who accept weigh so much, and has the data of the last
      validator i that voted. */
  lemma AggregatedSays(w: seq<nat>, b: Ballot, sign: Bytes, signers: Bytes, i: nat)
    requires IsBallot(w, b) && i in b.votes && forall j :: i < j < |w| ==> j !in b.votes
    ensures var (agg, yes, no) := (Maj23(w, b, sign, signers), W.Weight(w, Voters(b, true)), W.Weight(w, Voters(b, false)));
            && (agg.Some? <==> yes >= 2 * W.Total(w) / 3 || no >= 2 * W.Total(w) / 3)
            && (agg.Some? ==>
                  && agg.value.view == b.view && agg.value.round == b.round && agg.value.forHash == b.hash
                  && (agg.value.ok <==> yes >= 2 * W.Total(w) / 3) && agg.value.necessaryData == b.votes[i].data
                  && agg.value.sign == sign && agg.value.signers == signers)
  {
    hide W.Weight;
    DataIsOfLast(b.votes, |w|, i);
  }

  // ----- the object -----

  class HeightData {
    const w: seq<nat>
    const view: int
    const round: int
    var hash: Bytes
    var votes: array<Option<Vote>>
    var votesTotal: nat
    var rejectTotal: nat

    ghost predicate Valid()
      reads this, votes
    {
      votes.Length == |w| && IsBallot(w, Abs())
    }

    ghost function Abs(): Ballot
      reads this, votes
    {
      Ballot(view, round, hash, CastBy(votes[..]), votesTotal, rejectTotal)
    }

    constructor (w: seq<nat>, view: int, hash: Bytes)
      ensures Valid() && fresh(votes) && Abs() == NewBallot(view, hash) && this.w == w
    {
      this.w, this.view, this.round, this.hash := w, view, 0, hash;
      votes := new Option<Vote>[|w|](_ => None);
      votesTotal, rejectTotal := 0, 0;
      new;
      assert CastBy(votes[..]) == map[];
      NewIsBallot(w, view, hash);
    }

    /** SetHash, before any vote. */
    method SetHash(hash: Bytes)
      requires Valid() && Abs() == NewBallot(view, this.hash)
      modifies this`hash
      ensures Valid() && Abs() == NewBallot(view, hash)
    {
      this.hash := hash;
      NewIsBallot(w, view, hash);
    }

    /** addVote for a vote whose signature is right. */
    method AddVote(v: Vote) returns (counted: bool)
      requires Valid() && v.index < |w|
      modifies this`votesTotal, this`rejectTotal, votes
      ensures Valid() && counted == Counts(w, old(Abs()), v) && Abs() == Cast(w, old(Abs()), v)
      ensures counted <==> v.view == view && v.round == round && v.forHash == hash && old(votes[v.index]).None?
    {
      hide IsBallot;
      CastKeepsBallot(w, Abs(), v);
      if view != v.view || round != v.round || hash != v.forHash { return false; }
      if votes[v.index].Some? { return false; }
      CastOneMore(votes[..], v.index, v);
      ghost var slots := votes[..];
      if v.ok {
        votesTotal := votesTotal + w[v.index];
      } else {
        rejectTotal := rejectTotal + w[v.index];
      }
      votes[v.index] := Some(v);
      assert votes[..] == slots[v.index := Some(v)];
      counted := true;
    }

    /** The loop of getMaj23 keeps the data of the last vote it meets. */
    method GetMaj23(sign: Bytes, signers: Bytes) returns (agg: Option<AggVote>)
      requires Valid()
      ensures agg == Maj23(w, Abs(), sign, signers)
    {
      hide IsBallot;
      var ok := votesTotal >= 2 * W.Total(w) / 3;
      if !ok && rejectTotal < 2 * W.Total(w) / 3 { return None; }
      var data: seq<Bytes> := [];
      for i := 0 to votes.Length
        invariant data == LastData(CastBy(votes[..]), i)
      {
        if votes[i].Some? {
          data := votes[i].value.data;
        }
      }
      agg := Some(AggVote(ok, view, round, hash, data, sign, signers));
    }
  }

  /** The votes in the slots. */
  function CastBy(slots: seq<Option<Vote>>): (r: map<nat, Vote>)
    ensures forall i: nat :: i in r <==> i < |slots| && slots[i].Some?
    ensures forall i :: i in r ==> r[i] == slots[i].value
  {
    if slots == [] then map[]
    else
      var (m, last) := (|slots| - 1, slots[|slots| - 1]);
      if last.Some? then CastBy(slots[..m])[m := last.value] else CastBy(slots[..m])
  }

  lemma CastOneMore(slots: seq<Option<Vote>>, i: nat, v: Vote)
    requires i < |slots|
    ensures CastBy(slots[i := Some(v)]) == CastBy(slots)[i := v]
  {
    hide CastBy;
  }
}
