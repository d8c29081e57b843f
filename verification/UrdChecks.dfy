/** What a leader lets in: no message is stored, held or put into a block whose proofs do not verify
    (urd/consensus/state.go, urd/types/cross_shard_data.go). */
module UrdChecks {
  import opened Bytes
  import opened Merkle
  import opened MerkleProof
  import opened UrdTypes
  import opened UrdHistory
  import opened UrdPipeline
  import opened UrdLeader
  import opened UrdVotes
  import opened UrdVoting

  /** Every proof that the message has verifies against the last hash of its vote: the intention proof for the pair of the
      brief's root and the right hash, the outer output proof for what the inner one computes, and that for the root of the
      transactions. */
  predicate ProofsHold(c: Crypto, m: CrossShardMessage) {
    var last := LastHash(m.aggVote);
    && (m.proofOfIntention.Some? ==>
          var p := m.proofOfIntention.value;
          Verify(c.h, p.intentionHashProof, last, Root(c.h, [Root(c.h, m.intentionBrief), p.rightHash])) == Ok)
    && (m.outputTxsProof.Some? ==>
          var p := m.outputTxsProof.value;
          && Verify(c.h, p.optProof, ComputeRootHash(c.h, p.optProof), Root(c.h, m.opTxs)) == Ok
          && Verify(c.h, p.blockProof, last, ComputeRootHash(c.h, p.optProof)) == Ok)
  }

  /** The check on messages is just that. */
  lemma ValidMeansProofsHold(c: Crypto, m: CrossShardMessage)
    ensures ValidMessage(c, m) <==> ProofsHold(c, m)
  {
    hide Verify, Root, ComputeRootHash, LastHash;
  }

  function KeyOf(m: CrossShardMessage): (nat, Bytes) {
    (m.source, LastHash(m.aggVote))
  }

  /** The message is new, of a shard that exists, and its proofs hold. */
  predicate IsWelcome(c: Crypto, n: nat, l: Leader, m: CrossShardMessage) {
    ProofsHold(c, m) && m.source < n && KeyOf(m) !in l.store
  }

  /** A message that is not welcome changes nothing and sends nothing; one that is, is stored, and nothing else is. */
  lemma OnlyWelcomeAreStored(c: Crypto, names: seq<Bytes>, k: Committee, v: Voting, m: CrossShardMessage, inp: Input)
    ensures !IsWelcome(c, |names|, v.l, m) ==> Handle(c, names, k, v, Told(m), inp) == Some((v, {}))
    ensures IsWelcome(c, |names|, v.l, m) && Handle(c, names, k, v, Told(m), inp).Some? ==>
              Handle(c, names, k, v, Told(m), inp).value.0.l.store == v.l.store[KeyOf(m) := m]
  {
    hide Verify, Root, ComputeRootHash, LastHash, Transit;
    if IsWelcome(c, |names|, v.l, m) {
      assert !Refused(c, |names|, v.l, m);
      TransitKeepsStore(c, names, k, v.(l := Accept(v.l, m)), inp);
    }
  }

  /** In particular, one with a proof that fails. */
  lemma FailingProofIsIgnored(c: Crypto, names: seq<Bytes>, k: Committee, v: Voting, m: CrossShardMessage, inp: Input)
    requires !ProofsHold(c, m)
    ensures Handle(c, names, k, v, Told(m), inp) == Some((v, {}))
  {
    hide Handle, ProofsHold;
    OnlyWelcomeAreStored(c, names, k, v, m, inp);
  }

  lemma TransitKeepsStore(c: Crypto, names: seq<Bytes>, k: Committee, v: Voting, inp: Input)
    ensures Transit(c, names, k, v, inp).Some? ==> Transit(c, names, k, v, inp).value.0.l.store == v.l.store
  {
    hide OwnBallot, MakeBlock, MakeMessage, IsComplete, ProposeIsDefined, MessageIsDefined, Agg;
  }

  // ----- after any arrivals -----

  /** A message of shard t, checked. */
  predicate IsChecked(c: Crypto, t: nat, m: CrossShardMessage) {
    m.source == t && ProofsHold(c, m)
  }

  predicate StoreIsChecked(c: Crypto, store: map<(nat, Bytes), CrossShardMessage>) {
    forall key :: key in store ==> IsChecked(c, key.0, store[key]) && key == KeyOf(store[key])
  }

  /** The messages of other shards are checked. */
  predicate OthersAreChecked(c: Crypto, id: nat, held: map<nat, CrossShardMessage>) {
    forall t :: t in held && t != id ==> IsChecked(c, t, held[t])
  }

  /** What is stored, what is held in this view, and what the last block was made of. */
  predicate AllChecked(c: Crypto, l: Leader) {
    StoreIsChecked(c, l.store) && OthersAreChecked(c, l.id, l.finished) && OthersAreChecked(c, l.id, l.j1Finished)
  }

  lemma AcceptChecked(c: Crypto, n: nat, l: Leader, m: CrossShardMessage)
    requires AllChecked(c, l) && IsWelcome(c, n, l, m)
    ensures AllChecked(c, Accept(l, m)) && Accept(l, m).id == l.id
  {
    hide ProofsHold, LastHash;
  }

  lemma RedoChecked(c: Crypto, l: Leader)
    requires AllChecked(c, l)
    ensures AllChecked(c, Redo(l)) && Redo(l).id == l.id
  {
    hide ProofsHold, LastHash;
    var r := Redo(l);
    forall t | t in r.finished && t != l.id ensures IsChecked(c, t, r.finished[t]) {
      if t in l.lastHash && IsStored(l, t) {
        assert r.finished[t] == Stored(l, t);
        assert (t, l.lastHash[t]) in l.store;
      } else {
        assert t in l.finished && r.finished[t] == l.finished[t];
      }
    }
  }

  lemma CommunicateChecked(c: Crypto, n: nat, l: Leader)
    requires AllChecked(c, l) && CommunicateIsDefined(n, l)
    ensures AllChecked(c, Communicate(c, n, l)) && Communicate(c, n, l).id == l.id
  {
    hide IsChecked, Redo, MakeMessage, StoreIsChecked;
    RedoChecked(c, l);
    assert MakeMessage(c, l, l.id).source == l.id by { MessageIsOwn(c, l, l.id); }
  }

  lemma MessageIsOwn(c: Crypto, l: Leader, index: nat)
    requires l.agg.Some? && MessageIsDefined(l, index)
    ensures MakeMessage(c, l, index).source == l.id
  {
  }

  lemma ProposeChecked(c: Crypto, names: seq<Bytes>, k: Committee, l: Leader, inp: Input)
    requires AllChecked(c, l) && l.id < |names| && ProposeIsDefined(|names|, l)
    ensures AllChecked(c, DoPropose(c, names, k, l, inp).l) && DoPropose(c, names, k, l, inp).l.id == l.id
  {
    hide IsChecked, MakeBlock, OwnBallot, Agg, StoreIsChecked, ProposeIsDefined;
  }

  lemma TransitChecked(c: Crypto, names: seq<Bytes>, k: Committee, v: Voting, inp: Input)
    requires AllChecked(c, v.l)
    ensures var r := Transit(c, names, k, v, inp);
            r.Some? ==> AllChecked(c, r.value.0.l) && r.value.0.l.id == v.l.id
  {
    hide AllChecked, IsComplete, ProposeIsDefined, CommunicateIsDefined, Communicate, DoPropose;
    if v.l.id < |names| && DriveIsDefined(c, |names|, v.l) {
      var l := v.l;
      if v.l.step == LeaderVote && v.l.agg.Some? {
        CommunicateChecked(c, |names|, v.l);
        l := Communicate(c, |names|, v.l);
        CommunicateWaits(c, |names|, v.l);
      }
      if l.step == LeaderWait && IsComplete(l) { ProposeChecked(c, names, k, l, inp); }
    }
  }

  lemma HandleChecked(c: Crypto, names: seq<Bytes>, k: Committee, v: Voting, a: Arrival, inp: Input)
    requires AllChecked(c, v.l)
    ensures var r := Handle(c, names, k, v, a, inp);
            r.Some? ==> AllChecked(c, r.value.0.l) && r.value.0.l.id == v.l.id
  {
    match a {
      case Voted(vote) =>
        hide AllChecked, Transit, Cast, Counts, Agg;
        var b := Cast(k.w, v.ballot, vote);
        assert AllChecked(c, v.l.(agg := Agg(k, b))) by { AggChecked(c, v.l, Agg(k, b)); }
        TransitChecked(c, names, k, Voting(if v.l.step == LeaderVote then v.l.(agg := Agg(k, b)) else v.l, b), inp);
      case Told(m) =>
        OnlyWelcomeAreStored(c, names, k, v, m, inp);
        if IsWelcome(c, |names|, v.l, m) {
          hide AllChecked, Transit, Accept, IsWelcome;
          AcceptChecked(c, |names|, v.l, m);
          TransitChecked(c, names, k, v.(l := Accept(v.l, m)), inp);
        }
    }
  }

  lemma AggChecked(c: Crypto, l: Leader, agg: Option<AggVote>)
    requires AllChecked(c, l)
    ensures AllChecked(c, l.(agg := agg))
  {
    hide IsChecked;
  }

  lemma BeginChecked(c: Crypto, names: seq<Bytes>, k: Committee, id: nat, inp: Input)
    requires id < |names|
    ensures AllChecked(c, Begin(c, names, k, id, inp).l)
  {
    hide OwnBallot, MakeBlock, Agg, ProofsHold;
  }

  /** Whatever arrives after Start, every message that the leader stores, every message of another shard that it holds, and
      every one that its last block was made of, is of the shard it is filed under and has only proofs that verify. */
  lemma {:induction false} OnlyCheckedAreHeld(c: Crypto, names: seq<Bytes>, k: Committee, id: nat, inp: Input, steps: seq<(Arrival, Input)>)
    requires id < |names|
    ensures var r := HandleAll(c, names, k, Begin(c, names, k, id, inp), steps);
            r.Some? ==> AllChecked(c, r.value.0.l)
  {
    hide Begin, Handle, AllChecked;
    if steps == [] {
      BeginChecked(c, names, k, id, inp);
    } else {
      var m := |steps| - 1;
      var v := Begin(c, names, k, id, inp);
      OnlyCheckedAreHeld(c, names, k, id, inp, steps[..m]);
      if HandleAll(c, names, k, v, steps[..m]).Some? {
        HandleChecked(c, names, k, HandleAll(c, names, k, v, steps[..m]).value.0, steps[m].0, steps[m].1);
      }
    }
  }
}
