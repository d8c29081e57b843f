/** Weighted votes of one shard's validators (pyramid/consensus/constypes/vote_set.go). A bit vector over the
    validators is the set of its indices. */
module PyramidVotes {
  import opened Bytes

  // ----- weights -----

  /** The weight of the validators below k that are in s. */
  function WeightBelow(w: seq<nat>, s: set<nat>, k: nat): nat
    requires k <= |w|
  {
    if k == 0 then 0 else WeightBelow(w, s, k - 1) + if k - 1 in s then w[k - 1] else 0
  }

  function Weight(w: seq<nat>, s: set<nat>): nat {
    WeightBelow(w, s, |w|)
  }

  function Total(w: seq<nat>): nat {
    if w == [] then 0 else Total(w[..|w| - 1]) + w[|w| - 1]
  }

  lemma {:induction false} WeightOfUnion(w: seq<nat>, a: set<nat>, b: set<nat>, k: nat)
    requires k <= |w|
    ensures WeightBelow(w, a, k) + WeightBelow(w, b, k) == WeightBelow(w, a + b, k) + WeightBelow(w, a * b, k)
  {
    if k > 0 { WeightOfUnion(w, a, b, k - 1); }
  }

  lemma {:induction false} WeightGrows(w: seq<nat>, a: set<nat>, b: set<nat>, k: nat)
    requires k <= |w| && forall i :: 0 <= i < k && i in a ==> i in b
    ensures WeightBelow(w, a, k) <= WeightBelow(w, b, k)
  {
    if k > 0 { WeightGrows(w, a, b, k - 1); }
  }

  lemma {:induction false} WeightIsBounded(w: seq<nat>, s: set<nat>, k: nat)
    requires k <= |w|
    ensures WeightBelow(w, s, k) <= Total(w[..k])
  {
    if k > 0 {
      WeightIsBounded(w, s, k - 1);
      assert w[..k][..k - 1] == w[..k - 1];
    }
  }

  lemma {:induction false} WeightOfOneMore(w: seq<nat>, s: set<nat>, i: nat, k: nat)
    requires i < |w| && i !in s && k <= |w|
    ensures WeightBelow(w, s + {i}, k) == WeightBelow(w, s, k) + if i < k then w[i] else 0
  {
    if k > 0 { WeightOfOneMore(w, s, i, k - 1); }
  }

  /** Strictly more than two thirds of all weight. */
  predicate IsQuorum(w: seq<nat>, s: set<nat>) {
    3 * Weight(w, s) > 2 * Total(w)
  }

  /** At most one third of all weight. */
  predicate IsMinority(w: seq<nat>, s: set<nat>) {
    3 * Weight(w, s) <= Total(w)
  }

  /** Two quorums share a validator outside any minority. */
  lemma QuorumsMeet(w: seq<nat>, a: set<nat>, b: set<nat>, bad: set<nat>) returns (i: nat)
    requires IsQuorum(w, a) && IsQuorum(w, b) && IsMinority(w, bad)
    ensures i < |w| && i in a && i in b && i !in bad
  {
    WeightOfUnion(w, a, b, |w|);
    WeightIsBounded(w, a + b, |w|);
    assert w[..|w|] == w;
    if forall k :: 0 <= k < |w| && k in a * b ==> k in bad {
      WeightGrows(w, a * b, bad, |w|);
      assert false;
    }
    i :| 0 <= i < |w| && i in a * b && i !in bad;
  }

  // ----- 32-bit arithmetic -----

  const LIMIT: nat := 0x4000_0000

  /** A Go int32. */
  function Int32(x: int): int {
    (x + 0x8000_0000) % 0x1_0000_0000 - 0x8000_0000
  }

  /** Go's division truncates towards zero. */
  function Quotient(a: int, b: nat): int
    requires b > 0
  {
    if a >= 0 then a / b else -(-a / b)
  }

  function Threshold(total: int): int {
    Quotient(Int32(2 * total), 3)
  }

  /** The comparison in AddVote means "more than two thirds" exactly when the total is below 2^30; from there on
      doubling wraps around, and one vote is enough. */
  lemma ThresholdIsTwoThirds(total: nat)
    requires total < 0x8000_0000
    ensures (forall count: int :: 0 <= count <= total ==> (count > Threshold(total) <==> 3 * count > 2 * total)) <==> total < LIMIT
  {
    if total < LIMIT {
      assert Int32(2 * total) == 2 * total;
    } else {
      assert Int32(2 * total) == 2 * total - 0x1_0000_0000;
      assert 1 > Threshold(total) && !(3 * 1 > 2 * total);
    }
  }

  // ----- vote sets -----

  datatype Vote = Vote(height: nat, index: nat, hash: Bytes, ok: bool)

  type Pair = (Bytes, bool)

  datatype Tally = Tally(votes: map<nat, Vote>, counts: map<Pair, int>, majority: Option<Pair>)

  const NO_VOTES: Tally := Tally(map[], map[], None)

  function PairOf(v: Vote): Pair {
    (v.hash, v.ok)
  }

  function Count(t: Tally, p: Pair): int {
    if p in t.counts then t.counts[p] else 0
  }

  /** VoteSet.AddVote: only a validator's first vote counts, and the first majority stays. */
  function AddVote(t: Tally, v: Vote, weight: int, total: int): Tally {
    if v.index in t.votes then t
    else
      var p := PairOf(v);
      var count := Int32(Count(t, p) + weight);
      Tally(t.votes[v.index := v], t.counts[p := count],
            if t.majority.None? && count > Threshold(total) then Some(p) else t.majority)
  }

  /** A second vote is an error when it names the same hash or the other code. */
  predicate IsAmbiguous(t: Tally, v: Vote) {
    v.index in t.votes && (v.hash == t.votes[v.index].hash || v.ok != t.votes[v.index].ok)
  }

  function Backers(t: Tally, p: Pair): set<nat> {
    set i | i in t.votes && PairOf(t.votes[i]) == p
  }

  /** The counts are the weights of the backers, and the majority is the one pair that a quorum backs. */
  ghost predicate IsTally(w: seq<nat>, t: Tally) {
    && (forall i :: i in t.votes ==> i < |w| && t.votes[i].index == i)
    && (forall p :: Count(t, p) == Weight(w, Backers(t, p)))
    && (t.majority.Some? ==> IsQuorum(w, Backers(t, t.majority.value)))
    && (t.majority.None? ==> forall p :: !IsQuorum(w, Backers(t, p)))
  }

  lemma BackersAfter(t: Tally, v: Vote, weight: int, total: int, p: Pair)
    requires v.index !in t.votes
    ensures Backers(AddVote(t, v, weight, total), p) == Backers(t, p) + if PairOf(v) == p then {v.index} else {}
  {
    hide Threshold, Int32;
    var votes' := t.votes[v.index := v];
    assert AddVote(t, v, weight, total).votes == votes';
  }

  lemma BackersVoted(t: Tally, p: Pair)
    ensures Backers(t, p) <= t.votes.Keys
  {
  }

  lemma Int32IsIdentity(x: nat)
    requires x < 0x8000_0000
    ensures Int32(x) == x
  {
  }

  lemma CountAfter(w: seq<nat>, t: Tally, v: Vote, p: Pair)
    requires IsTally(w, t) && Total(w) < LIMIT && v.index < |w| && v.index !in t.votes
    ensures var t' := AddVote(t, v, w[v.index], Total(w));
            && Count(t', p) == Weight(w, Backers(t', p))
            && (p != PairOf(v) ==> Backers(t', p) == Backers(t, p))
            && 0 <= Count(t', p) <= Total(w)
  {
    hide Threshold, Int32, Backers;
    var t' := AddVote(t, v, w[v.index], Total(w));
    var (b, b') := (Backers(t, p), Backers(t', p));
    BackersAfter(t, v, w[v.index], Total(w), p);
    WeightIsBounded(w, b', |w|);
    assert w[..|w|] == w;
    assert Count(t, p) == Weight(w, b);
    if p == PairOf(v) {
      assert v.index !in b by { BackersVoted(t, p); }
      WeightOfOneMore(w, b, v.index, |w|);
      Int32IsIdentity(Weight(w, b'));
    } else {
      assert b' == b;
    }
  }

  lemma TallyMajority(w: seq<nat>, t: Tally, v: Vote)
    requires IsTally(w, t) && Total(w) < LIMIT && v.index < |w| && v.index !in t.votes
    ensures var t' := AddVote(t, v, w[v.index], Total(w));
            && (t'.majority.Some? ==> IsQuorum(w, Backers(t', t'.majority.value)))
            && (t'.majority.None? ==> forall p :: !IsQuorum(w, Backers(t', p)))
  {
    hide Threshold, Int32, Backers;
    var t' := AddVote(t, v, w[v.index], Total(w));
    CountAfter(w, t, v, PairOf(v));
    ThresholdIsTwoThirds(Total(w));
    assert 0 <= Count(t', PairOf(v)) <= Total(w);
    if t.majority.Some? {
      var p := t.majority.value;
      CountAfter(w, t, v, p);
      BackersAfter(t, v, w[v.index], Total(w), p);
      WeightGrows(w, Backers(t, p), Backers(t', p), |w|);
    } else {
      forall p | p != PairOf(v) ensures !IsQuorum(w, Backers(t', p)) {
        CountAfter(w, t, v, p);
      }
    }
  }

  /** Adding any vote keeps the tally right. */
  lemma AddVoteKeepsTally(w: seq<nat>, t: Tally, v: Vote)
    requires IsTally(w, t) && Total(w) < LIMIT && v.index < |w|
    ensures IsTally(w, AddVote(t, v, w[v.index], Total(w)))
  {
    hide IsQuorum, Backers, Count, Weight;
    if v.index !in t.votes {
      TallyMajority(w, t, v);
      forall p ensures var t' := AddVote(t, v, w[v.index], Total(w)); Count(t', p) == Weight(w, Backers(t', p)) {
        CountAfter(w, t, v, p);
      }
    }
  }

  lemma NoVotesIsTally(w: seq<nat>)
    ensures IsTally(w, NO_VOTES)
  {
    forall p ensures Weight(w, Backers(NO_VOTES, p)) == 0 {
      assert Backers(NO_VOTES, p) == {};
      WeightOfNone(w, |w|);
    }
  }

  lemma {:induction false} WeightOfNone(w: seq<nat>, k: nat)
    requires k <= |w|
    ensures WeightBelow(w, {}, k) == 0
  {
    if k > 0 { WeightOfNone(w, k - 1); }
  }

}
