/** Messages without proofs: the checks let them pass, and make_block reads the proofs from the fourth block on
    (urd/types/cross_shard_data.go, urd/consensus/state_transition.go). */
module UrdUnproven {
  import opened Bytes
  import opened UrdTypes
  import opened UrdHistory
  import opened UrdLeader
  import opened UrdVotes
  import opened UrdVoting
  import Lockstep = UrdLockstep

  predicate IsProven(m: CrossShardMessage) {
    m.proofOfIntention.Some? && m.outputTxsProof.Some?
  }

  predicate AllProven(l: Leader) {
    forall t :: t in l.finished ==> IsProven(l.finished[t])
  }

  /** The leader waits for messages, of shards that exist. */
  predicate IsWaiting(n: nat, l: Leader) {
    l.step == LeaderWait && l.id < n && l.lastHash.Keys == Ids(n) && l.finished.Keys <= Ids(n)
  }

  lemma CompleteHasAll(n: nat, l: Leader)
    requires IsWaiting(n, l)
    ensures IsComplete(l) <==> l.finished.Keys == Ids(n)
  {
    assert |l.finished| == |l.finished.Keys| && |l.lastHash| == |l.lastHash.Keys|;
    if |l.finished| == |l.lastHash| {
      Lockstep.SubsetOfSameSize(l.finished.Keys, l.lastHash.Keys);
    }
  }

  /** A leader that holds all messages can propose exactly when it has fewer than four blocks or every message has both
      proofs. */
  lemma ProposalIsDefinedIff(n: nat, l: Leader)
    requires IsWaiting(n, l) && IsComplete(l)
    ensures ProposeIsDefined(n, l) <==> |l.pool| < 4 || AllProven(l)
  {
    hide IsComplete, IsProven, Ids;
    CompleteHasAll(n, l);
    assert AllProven(l) <==> HasProofs(n, l.finished) by { ProvenMeansProofs(n, l); }
    assert forall t: nat :: t < n ==> t in l.finished;
  }

  lemma ProvenMeansProofs(n: nat, l: Leader)
    requires l.finished.Keys == Ids(n)
    ensures AllProven(l) <==> HasProofs(n, l.finished)
  {
    hide Ids;
  }

  /** Taking a message makes a waiting leader panic exactly when that completes the view, there are four blocks, and some
      message then held lacks a proof. */
  lemma AcceptPanicsIff(c: Crypto, n: nat, l: Leader, m: CrossShardMessage)
    requires IsWaiting(n, l) && m.source < n
    ensures !DriveIsDefined(c, n, Accept(l, m)) <==>
            IsComplete(Accept(l, m)) && |l.pool| >= 4 && !AllProven(Accept(l, m))
  {
    hide IsComplete, ProposeIsDefined, AllProven, Accept;
    WaitingStays(n, l, m);
    if IsComplete(Accept(l, m)) { ProposalIsDefinedIff(n, Accept(l, m)); }
  }

  lemma WaitingStays(n: nat, l: Leader, m: CrossShardMessage)
    requires IsWaiting(n, l) && m.source < n
    ensures var l' := Accept(l, m);
            IsWaiting(n, l') && l'.pool == l.pool && l'.view == l.view && l'.history == l.history && l'.id == l.id &&
            l.finished.Keys <= l'.finished.Keys && forall t :: t in l.finished ==> l'.finished[t] == l.finished[t]
  {
    hide LastHash, Ids;
    assert m.source in Ids(n);
  }

  /** One of the messages held lacks a proof that the next proposal reads. */
  predicate IsDoomed(n: nat, l: Leader, s: nat) {
    IsWaiting(n, l) && |l.pool| >= 4 && s in l.finished && !IsProven(l.finished[s])
  }

  /** A message without proofs is taken, whatever it says, if it is next: that dooms a leader with four blocks. */
  lemma UnprovenDooms(c: Crypto, n: nat, l: Leader, m: CrossShardMessage)
    requires IsWaiting(n, l) && |l.pool| >= 4 && m.source < n && m.proofOfIntention.None? && m.outputTxsProof.None?
    requires (m.source, LastHash(m.aggVote)) !in l.store && m.source !in l.finished && l.lastHash[m.source] == LastHash(m.aggVote)
    ensures !Refused(c, n, l, m) && IsDoomed(n, Accept(l, m), m.source)
  {
    hide LastHash, Ids;
    WaitingStays(n, l, m);
  }

  lemma DoomedTransit(c: Crypto, names: seq<Bytes>, k: Committee, v: Voting, s: nat, inp: Input)
    requires IsDoomed(|names|, v.l, s)
    ensures Transit(c, names, k, v, inp) == if IsComplete(v.l) then None else Some((v, {}))
  {
    hide IsComplete, ProposeIsDefined, DoPropose;
    if IsComplete(v.l) {
      ProposalIsDefinedIff(|names|, v.l);
      assert !AllProven(v.l);
    }
  }

  lemma DoomedHandle(c: Crypto, names: seq<Bytes>, k: Committee, v: Voting, s: nat, a: Arrival, inp: Input)
    requires IsDoomed(|names|, v.l, s)
    ensures var r := Handle(c, names, k, v, a, inp);
            r.Some? ==> r.value.1 == {} && IsDoomed(|names|, r.value.0.l, s) && r.value.0.l.view == v.l.view && r.value.0.l.history == v.l.history
  {
    hide Transit, IsComplete, Counts, Cast, Agg, ValidMessage, IsProven, Accept;
    match a {
      case Voted(vote) =>
        DoomedTransit(c, names, k, Voting(v.l, Cast(k.w, v.ballot, vote)), s, inp);
      case Told(m) =>
        if !Refused(c, |names|, v.l, m) {
          WaitingStays(|names|, v.l, m);
          DoomedTransit(c, names, k, v.(l := Accept(v.l, m)), s, inp);
        }
    }
  }

  /** Such a leader never proposes again: whatever arrives, it stays in its view and sends nothing, or it panics. */
  lemma {:induction false} DoomedForever(c: Crypto, names: seq<Bytes>, k: Committee, v: Voting, s: nat, steps: seq<(Arrival, Input)>)
    requires IsDoomed(|names|, v.l, s)
    ensures var r := HandleAll(c, names, k, v, steps);
            r.Some? ==> r.value.1 == {} && IsDoomed(|names|, r.value.0.l, s) && r.value.0.l.view == v.l.view && r.value.0.l.history == v.l.history
  {
    hide Handle, IsDoomed;
    if steps != [] {
      var m := |steps| - 1;
      DoomedForever(c, names, k, v, s, steps[..m]);
      if HandleAll(c, names, k, v, steps[..m]).Some? {
        DoomedHandle(c, names, k, HandleAll(c, names, k, v, steps[..m]).value.0, s, steps[m].0, steps[m].1);
      }
    }
  }
}
