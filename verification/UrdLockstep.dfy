/** The invariant of all shard leaders together, and the three steps that keep it. */
module UrdLockstep {
  import opened Bytes
  import opened UrdTypes
  import opened UrdHistory
  import opened UrdPipeline
  import opened UrdLeader

  ghost predicate IsMessage(c: Crypto, hs: seq<History>, t: nat, w: nat, dest: nat, m: CrossShardMessage) {
    t < |hs| && HasMessage(hs[t], w) && ProofReady(hs[t], w, dest) && m == MessageAt(c, hs[t], t, w, dest)
  }

  // ----- one leader -----

  /** The window, the buffers and the executed blocks all follow from the chain. */
  ghost predicate LocalOk(l: Leader) {
    var h := l.history;
    && l.view >= 1 && |h.chain| == l.view && |h.outputs| == l.view
    && (match l.step
        case LeaderVote => |h.votes| == l.view - 1 && l.agg == None
        case LeaderWait => |h.votes| == l.view && l.agg == Some(h.votes[l.view - 1]))
    && l.pool == Window(h.chain)
    && h.executed == (if l.view >= 2 then h.chain[..l.view - 2] else [])
    && l.j1Txs == h.outputs[l.view - 1]
    && (l.view >= 2 ==> l.j2Txs == h.outputs[l.view - 2])
  }

  /** What is held of shard t: its message of this view, or the hash that message must continue. */
  ghost predicate HoldsFrom(c: Crypto, hs: seq<History>, l: Leader, t: nat)
    requires t < |hs|
  {
    && l.view >= 1 && l.view - 1 <= |hs[t].votes| <= |hs[t].chain|
    && t in l.lastHash
    && (if t in l.finished then
          && IsMessage(c, hs, t, l.view, l.id, l.finished[t])
          && l.lastHash[t] == HashAt(c, hs[t], l.view)
        else l.lastHash[t] == HashAt(c, hs[t], l.view - 1))
  }

  ghost predicate StoredOk(c: Crypto, hs: seq<History>, l: Leader, key: (nat, Bytes)) {
    && key in l.store && key.0 < |hs| && key.0 != l.id
    && exists w: nat :: IsMessage(c, hs, key.0, w, l.id, l.store[key]) && key.1 == HashAt(c, hs[key.0], w - 1)
  }

  /** A waiting leader has used every stored message of its view. */
  ghost predicate CaughtUp(c: Crypto, hs: seq<History>, l: Leader, t: nat)
    requires t < |hs| && HoldsFrom(c, hs, l, t)
  {
    t != l.id && (t, HashAt(c, hs[t], l.view - 1)) in l.store ==> t in l.finished
  }

  ghost predicate Held(c: Crypto, hs: seq<History>, l: Leader) {
    && l.lastHash.Keys == Ids(|hs|) && l.finished.Keys <= Ids(|hs|)
    && (forall t :: 0 <= t < |hs| ==> HoldsFrom(c, hs, l, t))
    && (l.id in l.finished <==> l.step == LeaderWait)
    && (forall key :: key in l.store ==> StoredOk(c, hs, l, key))
    && (l.step == LeaderWait ==> forall t :: 0 <= t < |hs| ==> CaughtUp(c, hs, l, t))
  }

  /** No two blocks of one leader have the same hash. */
  ghost predicate Distinct(c: Crypto, h: History) {
    forall u, v :: 0 <= u <= |h.chain| && 0 <= v <= |h.chain| && HashAt(c, h, u) == HashAt(c, h, v) ==> u == v
  }

  // ----- growth keeps what is held -----

  ghost predicate GrowAll(hs: seq<History>, hs': seq<History>) {
    |hs| == |hs'| && forall t :: 0 <= t < |hs| ==> Grows(hs[t], hs'[t])
  }

  lemma IsMessageStable(c: Crypto, hs: seq<History>, hs': seq<History>, t: nat, w: nat, dest: nat, m: CrossShardMessage)
    requires GrowAll(hs, hs') && IsMessage(c, hs, t, w, dest, m)
    ensures IsMessage(c, hs', t, w, dest, m)
  {
    hide MessageAt;
    MessageAtStable(c, hs[t], hs'[t], t, w, dest);
  }

  lemma HoldsFromStable(c: Crypto, hs: seq<History>, hs': seq<History>, l: Leader, t: nat)
    requires GrowAll(hs, hs') && t < |hs| && HoldsFrom(c, hs, l, t) && |hs'[t].votes| <= |hs'[t].chain|
    ensures HoldsFrom(c, hs', l, t)
  {
    hide MessageAt, HashAt;
    if t in l.finished {
      IsMessageStable(c, hs, hs', t, l.view, l.id, l.finished[t]);
      HashAtStable(c, hs[t], hs'[t], l.view);
    } else {
      HashAtStable(c, hs[t], hs'[t], l.view - 1);
    }
  }

  lemma StoredOkStable(c: Crypto, hs: seq<History>, hs': seq<History>, l: Leader, key: (nat, Bytes))
    requires GrowAll(hs, hs') && StoredOk(c, hs, l, key)
    ensures StoredOk(c, hs', l, key)
  {
    hide MessageAt, HashAt;
    var w: nat :| IsMessage(c, hs, key.0, w, l.id, l.store[key]) && key.1 == HashAt(c, hs[key.0], w - 1);
    IsMessageStable(c, hs, hs', key.0, w, l.id, l.store[key]);
    HashAtStable(c, hs[key.0], hs'[key.0], w - 1);
  }

  /** What a leader holds stays right while the others' histories grow. */
  lemma HeldStable(c: Crypto, hs: seq<History>, hs': seq<History>, l: Leader)
    requires GrowAll(hs, hs') && Held(c, hs, l)
    requires forall t :: 0 <= t < |hs'| ==> |hs'[t].votes| <= |hs'[t].chain|
    ensures Held(c, hs', l)
  {
    hide HoldsFrom, StoredOk;
    forall t | 0 <= t < |hs'| ensures HoldsFrom(c, hs', l, t) {
      HoldsFromStable(c, hs, hs', l, t);
    }
    forall key | key in l.store ensures StoredOk(c, hs', l, key) {
      StoredOkStable(c, hs, hs', l, key);
    }
    if l.step == LeaderWait {
      forall t | 0 <= t < |hs'| ensures CaughtUp(c, hs', l, t) {
        CaughtUpStable(c, hs, hs', l, t);
      }
    }
  }

  lemma CaughtUpStable(c: Crypto, hs: seq<History>, hs': seq<History>, l: Leader, t: nat)
    requires GrowAll(hs, hs') && t < |hs| && HoldsFrom(c, hs, l, t) && CaughtUp(c, hs, l, t) && HoldsFrom(c, hs', l, t)
    ensures CaughtUp(c, hs', l, t)
  {
    HashAtStable(c, hs[t], hs'[t], l.view - 1);
  }

  lemma VotesStable(hs: seq<History>, hs': seq<History>, w: nat)
    requires GrowAll(hs, hs') && forall t :: 0 <= t < |hs| ==> HasMessage(hs[t], w)
    ensures forall t :: 0 <= t < |hs'| ==> HasMessage(hs'[t], w)
    ensures VotesOf(hs', w) == VotesOf(hs, w)
  {
    forall t | 0 <= t < |hs'| ensures HasMessage(hs'[t], w) && VoteAt(hs'[t], w) == VoteAt(hs[t], w) {
      assert HasMessage(hs[t], w) && Grows(hs[t], hs'[t]);
    }
  }

  lemma AllSentStable(hs: seq<History>, hs': seq<History>, w: nat, dest: nat)
    requires GrowAll(hs, hs') && AllSent(hs, w, dest)
    ensures AllSent(hs', w, dest)
  {
    forall t | 0 <= t < |hs'| ensures HasMessage(hs'[t], w) && ProofReady(hs'[t], w, dest) {
      assert HasMessage(hs[t], w) && Grows(hs[t], hs'[t]);
    }
  }

  lemma BlockHoldsStable(c: Crypto, hs: seq<History>, hs': seq<History>, s: nat, v: nat)
    requires GrowAll(hs, hs') && s < |hs| && 1 <= v <= |hs[s].chain| && BlockHolds(c, hs, s, v)
    ensures v <= |hs'[s].chain| && BlockHolds(c, hs', s, v)
  {
    hide MessageAt;
    assert Grows(hs[s], hs'[s]);
    if v >= 2 {
      AllSentStable(hs, hs', v - 1, s);
      VotesStable(hs, hs', v - 1);
      assert HasMessage(hs[s], v - 1);
    }
    if v >= 5 {
      forall t | 0 <= t < |hs'| ensures MessageAt(c, hs'[t], t, v - 1, s) == MessageAt(c, hs[t], t, v - 1, s) {
        MessageAtStable(c, hs[t], hs'[t], t, v - 1, s);
      }
    }
  }

  /** A message is chained by the two hashes it carries. */
  lemma MessageLinks(c: Crypto, hs: seq<History>, t: nat, w: nat, dest: nat, m: CrossShardMessage)
    requires Aligned(c, hs) && IsMessage(c, hs, t, w, dest, m)
    ensures 1 <= w <= |hs[t].votes| <= |hs[t].chain|
    ensures m.source == t
    ensures m.aggVote.forHash == HashAt(c, hs[t], w)
    ensures LastHash(m.aggVote) == HashAt(c, hs[t], w - 1)
  {
    hide HashAt, BlockHolds, BlockInPlace, IntentionProofOf, OutputProofOf;
    assert VoteInPlace(c, hs[t], w);
  }

  // ----- accepting a message -----

  lemma AcceptKeepsHolding(c: Crypto, hs: seq<History>, l: Leader, t: nat, w: nat, m: CrossShardMessage, u: nat)
    requires Aligned(c, hs) && u < |hs| && HoldsFrom(c, hs, l, u)
    requires IsMessage(c, hs, t, w, l.id, m) && Distinct(c, hs[t])
    ensures HoldsFrom(c, hs, Accept(l, m), u)
    ensures u in l.finished ==> u in Accept(l, m).finished
    ensures u == t && w == l.view ==> u in Accept(l, m).finished
  {
    hide Aligned, MessageAt, HashAt;
    MessageLinks(c, hs, t, w, l.id, m);
    if u == t && w == l.view {
      assert u in l.finished || l.lastHash[u] == LastHash(m.aggVote);
    }
  }

  /** Accepting a message that was sent leaves everything held in order. */
  lemma AcceptKeepsHeld(c: Crypto, hs: seq<History>, l: Leader, t: nat, w: nat, m: CrossShardMessage)
    requires Aligned(c, hs) && Held(c, hs, l) && l.id < |hs|
    requires IsMessage(c, hs, t, w, l.id, m) && t != l.id && Distinct(c, hs[t])
    ensures Held(c, hs, Accept(l, m))
  {
    hide Aligned, HoldsFrom, MessageAt;
    var l' := Accept(l, m);
    forall u | 0 <= u < |hs| ensures HoldsFrom(c, hs, l', u) {
      AcceptKeepsHolding(c, hs, l, t, w, m, u);
    }
    AcceptKeepsStored(c, hs, l, t, w, m);
    if l.step == LeaderWait {
      forall u | 0 <= u < |hs| ensures CaughtUp(c, hs, l', u) {
        AcceptCatchesUp(c, hs, l, t, w, m, u);
      }
    }
  }

  /** What is stored under which key, and which entries there are, after accepting. */
  lemma AcceptShape(l: Leader, m: CrossShardMessage)
    ensures Accept(l, m).store == l.store[(m.source, LastHash(m.aggVote)) := m] && Accept(l, m).id == l.id
    ensures m.source in l.lastHash ==> Accept(l, m).lastHash.Keys == l.lastHash.Keys
    ensures l.finished.Keys <= Accept(l, m).finished.Keys <= l.finished.Keys + {m.source}
  {
    hide LastHash;
  }

  lemma NewStoredOk(c: Crypto, hs: seq<History>, l': Leader, t: nat, w: nat, m: CrossShardMessage, key: (nat, Bytes))
    requires IsMessage(c, hs, t, w, l'.id, m) && t != l'.id && key in l'.store && l'.store[key] == m
    requires w >= 1 && w <= |hs[t].chain| && key == (t, HashAt(c, hs[t], w - 1))
    ensures StoredOk(c, hs, l', key)
  {
    hide MessageAt, HashAt, ProofReady;
    assert IsMessage(c, hs, key.0, w, l'.id, l'.store[key]);
  }

  lemma OldStoredOk(c: Crypto, hs: seq<History>, l: Leader, l': Leader, key: (nat, Bytes))
    requires StoredOk(c, hs, l, key) && l'.id == l.id && key in l'.store && l'.store[key] == l.store[key]
    ensures StoredOk(c, hs, l', key)
  {
    hide MessageAt, HashAt, ProofReady;
    var w: nat :| IsMessage(c, hs, key.0, w, l.id, l.store[key]) && key.1 == HashAt(c, hs[key.0], w - 1);
    assert IsMessage(c, hs, key.0, w, l'.id, l'.store[key]);
  }

  lemma AcceptKeepsStored(c: Crypto, hs: seq<History>, l: Leader, t: nat, w: nat, m: CrossShardMessage)
    requires Aligned(c, hs) && Held(c, hs, l)
    requires IsMessage(c, hs, t, w, l.id, m) && t != l.id
    ensures forall key :: key in Accept(l, m).store ==> StoredOk(c, hs, Accept(l, m), key)
    ensures Accept(l, m).lastHash.Keys == Ids(|hs|) && Accept(l, m).finished.Keys <= Ids(|hs|)
    ensures l.id in Accept(l, m).finished <==> l.id in l.finished
  {
    hide HoldsFrom, CaughtUp, Aligned, StoredOk, HashAt, Accept, LastHash, IsMessage;
    assert t < |hs| by { MessageInRange(c, hs, t, w, l.id, m); }
    MessageLinks(c, hs, t, w, l.id, m);
    AcceptShape(l, m);
    var l' := Accept(l, m);
    forall key | key in l'.store ensures StoredOk(c, hs, l', key) {
      if key == (m.source, LastHash(m.aggVote)) {
        NewStoredOk(c, hs, l', t, w, m, key);
      } else {
        OldStoredOk(c, hs, l, l', key);
      }
    }
  }

  lemma MessageInRange(c: Crypto, hs: seq<History>, t: nat, w: nat, dest: nat, m: CrossShardMessage)
    requires IsMessage(c, hs, t, w, dest, m)
    ensures t < |hs| && 1 <= w
  {
  }

  lemma AcceptCatchesUp(c: Crypto, hs: seq<History>, l: Leader, t: nat, w: nat, m: CrossShardMessage, u: nat)
    requires Aligned(c, hs) && Held(c, hs, l) && l.step == LeaderWait && u < |hs|
    requires IsMessage(c, hs, t, w, l.id, m) && Distinct(c, hs[t])
    requires HoldsFrom(c, hs, Accept(l, m), u)
    ensures CaughtUp(c, hs, Accept(l, m), u)
  {
    hide Aligned, MessageAt, HashAt, StoredOk;
    MessageLinks(c, hs, t, w, l.id, m);
    AcceptKeepsHolding(c, hs, l, t, w, m, u);
    assert CaughtUp(c, hs, l, u);
  }

  // ----- communicating -----

  /** A replayed message is the one of this view, and nothing is held yet of its shard. */
  lemma RedoNeverOverwrites(c: Crypto, hs: seq<History>, l: Leader, t: nat)
    requires Aligned(c, hs) && Held(c, hs, l) && l.id < |hs| && |hs[l.id].votes| == l.view - 1
    requires t < |hs| && t in l.lastHash && IsStored(l, t) && Distinct(c, hs[t])
    ensures t !in l.finished
    ensures IsMessage(c, hs, t, l.view, l.id, Stored(l, t))
  {
    hide Aligned, MessageAt, HashAt, CaughtUp;
    var key := (t, l.lastHash[t]);
    assert HoldsFrom(c, hs, l, t) && StoredOk(c, hs, l, key);
    var w: nat :| IsMessage(c, hs, t, w, l.id, l.store[key]) && key.1 == HashAt(c, hs[t], w - 1);
    MessageLinks(c, hs, t, w, l.id, l.store[key]);
    if t in l.finished {
      MessageLinks(c, hs, t, l.view, l.id, l.finished[t]);
      assert w - 1 == l.view;
      VoteOfView(c, hs, t, w, l.id);
      assert false;
    }
    assert w - 1 == l.view - 1;
  }

  /** The next vote is on the block of this view and carries the hash of the block before it. */
  predicate VoteFits(c: Crypto, l: Leader, v: AggVote)
    requires l.view >= 1 && |l.history.chain| == l.view
  {
    v.forHash == HashAt(c, l.history, l.view) && LastHash(v) == HashAt(c, l.history, l.view - 1)
  }

  function AddVote(h: History, v: AggVote): History {
    h.(votes := h.votes + [v])
  }

  lemma OwnChainAfterVote(c: Crypto, n: nat, l: Leader, v: AggVote)
    requires LocalOk(l) && l.step == LeaderVote && OwnChain(c, n, l.history) && VoteFits(c, l, v)
    ensures Grows(l.history, AddVote(l.history, v))
    ensures OwnChain(c, n, AddVote(l.history, v))
  {
    hide BlockHash, RootsOf, Window;
    var (h, h') := (l.history, AddVote(l.history, v));
    forall u | 1 <= u <= |h'.chain| ensures BlockInPlace(c, n, h', u) {
      assert BlockInPlace(c, n, h, u);
    }
    forall w | 1 <= w <= |h'.votes| ensures VoteInPlace(c, h', w) {
      if w <= |h.votes| {
        assert VoteInPlace(c, h, w);
      }
    }
  }

  /** One leader's history grows; what blocks hold of it stays. */
  lemma AlignedWhenOneGrows(c: Crypto, hs: seq<History>, hs': seq<History>, i: nat)
    requires Aligned(c, hs) && i < |hs| == |hs'| && hs' == hs[i := hs'[i]] && Grows(hs[i], hs'[i]) && OwnChain(c, |hs|, hs'[i])
    requires |hs'[i].chain| <= |hs[i].chain| + 1
    requires |hs'[i].chain| > |hs[i].chain| ==> BlockHolds(c, hs', i, |hs'[i].chain|)
    ensures GrowAll(hs, hs') && Aligned(c, hs')
  {
    hide BlockHolds, OwnChain;
    forall s | 0 <= s < |hs'| ensures OwnChain(c, |hs'|, hs'[s]) && ChainHolds(c, hs', s) {
      assert OwnChain(c, |hs|, hs[s]) && ChainHolds(c, hs, s);
      forall v | 1 <= v <= |hs'[s].chain| ensures BlockHolds(c, hs', s, v) {
        if v <= |hs[s].chain| {
          BlockHoldsStable(c, hs, hs', s, v);
        }
      }
    }
  }

  lemma PoolLookup(l: Leader)
    requires LocalOk(l)
    ensures |l.pool| >= 4 <==> l.view >= 4
    ensures l.view >= 4 ==> l.pool[|l.pool| - 2] == l.history.chain[l.view - 2]
  {
    if l.view >= 4 {
      FetchFromWindow(l.history.chain, 2);
    }
  }

  /** In every view the buffered outputs, the block two places back and the proofs belong together: the message
      made from them is the one that the history prescribes. */
  lemma MessageIsAligned(c: Crypto, hs: seq<History>, l: Leader, v: AggVote, index: nat)
    requires Aligned(c, hs) && l.id < |hs| && hs[l.id] == l.history && LocalOk(l) && l.step == LeaderVote && index < |hs|
    ensures MessageIsDefined(l.(agg := Some(v)), index)
    ensures var h' := AddVote(l.history, v);
            && HasMessage(h', l.view) && ProofReady(h', l.view, index)
            && MakeMessage(c, l.(agg := Some(v)), index) == MessageAt(c, h', l.id, l.view, index)
  {
    hide BlockHash, Window, IntentionProofOf, OutputProofOf;
    PoolLookup(l);
    if l.view >= 4 {
      assert BlockInPlace(c, |hs|, hs[l.id], l.view - 1);
      assert BlockHolds(c, hs, l.id, l.view - 1);
    }
  }

  lemma CommunicateIsDefinedHere(c: Crypto, hs: seq<History>, l: Leader, v: AggVote)
    requires Aligned(c, hs) && l.id < |hs| && hs[l.id] == l.history && LocalOk(l) && l.step == LeaderVote
    ensures CommunicateIsDefined(|hs|, l.(agg := Some(v)))
  {
    hide MessageIsDefined, Aligned, LocalOk;
    forall index | 0 <= index < |hs| ensures MessageIsDefined(l.(agg := Some(v)), index) {
      MessageIsAligned(c, hs, l, v, index);
    }
  }

  lemma CommunicateKeepsLocal(c: Crypto, n: nat, l: Leader, v: AggVote)
    requires LocalOk(l) && l.step == LeaderVote && CommunicateIsDefined(n, l.(agg := Some(v)))
    ensures LocalOk(Communicate(c, n, l.(agg := Some(v))))
    ensures Communicate(c, n, l.(agg := Some(v))).history == AddVote(l.history, v)
  {
    hide Window, MakeMessage;
  }

  lemma MadeMessage(c: Crypto, l: Leader, index: nat)
    requires l.agg.Some? && MessageIsDefined(l, index)
    ensures MakeMessage(c, l, index).source == l.id && MakeMessage(c, l, index).aggVote == l.agg.value
  {
  }

  /** The state in which a quorum is reached: everything in order, and a vote that fits. */
  ghost predicate ReadyToCommunicate(c: Crypto, hs: seq<History>, l: Leader, v: AggVote) {
    && Aligned(c, hs) && Held(c, hs, l) && l.id < |hs| && hs[l.id] == l.history
    && LocalOk(l) && l.step == LeaderVote && VoteFits(c, l, v)
    && CommunicateIsDefined(|hs|, l.(agg := Some(v)))
  }

  function AfterVote(hs: seq<History>, i: nat, v: AggVote): seq<History>
    requires i < |hs|
  {
    hs[i := AddVote(hs[i], v)]
  }

  /** The messages held after communicating: the old ones, those replayed, and the leader's own. */
  lemma CommunicateEffect(c: Crypto, hs: seq<History>, l: Leader, v: AggVote, t: nat)
    requires ReadyToCommunicate(c, hs, l, v) && t < |hs|
    ensures t in l.lastHash
    ensures var l' := Communicate(c, |hs|, l.(agg := Some(v)));
            && l'.view == l.view && l'.id == l.id && t in l'.lastHash
            && (t == l.id ==>
                  t in l'.finished && l'.finished[t] == MakeMessage(c, l.(agg := Some(v)), t) && l'.lastHash[t] == v.forHash)
            && (t != l.id && IsStored(l, t) ==>
                  t in l'.finished && l'.finished[t] == Stored(l, t) && l'.lastHash[t] == Stored(l, t).aggVote.forHash)
            && (t != l.id && !IsStored(l, t) ==>
                  && (t in l'.finished <==> t in l.finished) && l'.lastHash[t] == l.lastHash[t]
                  && (t in l.finished ==> l'.finished[t] == l.finished[t]))
  {
    hide Aligned, HashAt, LocalOk, StoredOk, CaughtUp, HoldsFrom, MakeMessage;
    MadeMessage(c, l.(agg := Some(v)), l.id);
    assert t in Ids(|hs|);
  }

  lemma CommunicateHoldsOwn(c: Crypto, hs: seq<History>, l: Leader, v: AggVote)
    requires ReadyToCommunicate(c, hs, l, v)
    ensures HoldsFrom(c, AfterVote(hs, l.id, v), Communicate(c, |hs|, l.(agg := Some(v))), l.id)
  {
    hide Aligned, HashAt, MessageAt, MakeMessage, Communicate, StoredOk, CaughtUp;
    CommunicateEffect(c, hs, l, v, l.id);
    MessageIsAligned(c, hs, l, v, l.id);
    HashAtStable(c, l.history, AddVote(l.history, v), l.view);
    var (hs', l') := (AfterVote(hs, l.id, v), Communicate(c, |hs|, l.(agg := Some(v))));
    assert hs'[l.id] == AddVote(l.history, v);
    assert IsMessage(c, hs', l.id, l.view, l.id, l'.finished[l.id]);
    assert l'.lastHash[l.id] == HashAt(c, hs'[l.id], l.view);
    assert l'.view >= 1 && l'.view - 1 <= |hs'[l.id].votes| <= |hs'[l.id].chain|;
    assert l.id in l'.lastHash && l.id in l'.finished;
    assert HoldsFrom(c, hs', l', l.id);
  }

  lemma CommunicateHoldsOther(c: Crypto, hs: seq<History>, l: Leader, v: AggVote, t: nat)
    requires ReadyToCommunicate(c, hs, l, v) && t < |hs| && t != l.id && Distinct(c, hs[t])
    ensures HoldsFrom(c, AfterVote(hs, l.id, v), Communicate(c, |hs|, l.(agg := Some(v))), t)
  {
    hide Aligned, HashAt, MessageAt, MakeMessage, Communicate, StoredOk, CaughtUp, LocalOk;
    var hs' := AfterVote(hs, l.id, v);
    CommunicateEffect(c, hs, l, v, t);
    assert HoldsFrom(c, hs, l, t) && hs'[t] == hs[t];
    if IsStored(l, t) {
      StoredIsNext(c, hs, l, v, t);
      MessageLinks(c, hs, t, l.view, l.id, Stored(l, t));
    }
  }

  lemma StoredIsNext(c: Crypto, hs: seq<History>, l: Leader, v: AggVote, t: nat)
    requires ReadyToCommunicate(c, hs, l, v) && t < |hs| && Distinct(c, hs[t]) && t in l.lastHash && IsStored(l, t)
    ensures t !in l.finished && IsMessage(c, hs, t, l.view, l.id, Stored(l, t))
  {
    hide Aligned, Held, MessageAt, CommunicateIsDefined;
    RedoNeverOverwrites(c, hs, l, t);
  }

  lemma AlignedAfterVote(c: Crypto, hs: seq<History>, l: Leader, v: AggVote)
    requires ReadyToCommunicate(c, hs, l, v)
    ensures GrowAll(hs, AfterVote(hs, l.id, v)) && Aligned(c, AfterVote(hs, l.id, v))
  {
    hide Held, CommunicateIsDefined, OwnChain, ChainHolds;
    OwnChainAfterVote(c, |hs|, l, v);
    AlignedWhenOneGrows(c, hs, AfterVote(hs, l.id, v), l.id);
  }

  lemma CommunicateKeepsHeld(c: Crypto, hs: seq<History>, l: Leader, v: AggVote)
    requires ReadyToCommunicate(c, hs, l, v)
    requires forall t :: 0 <= t < |hs| ==> Distinct(c, hs[t])
    ensures Held(c, AfterVote(hs, l.id, v), Communicate(c, |hs|, l.(agg := Some(v))))
  {
    hide Aligned, LocalOk, HoldsFrom, StoredOk, CaughtUp, Distinct, MakeMessage, VoteFits;
    var (hs', l') := (AfterVote(hs, l.id, v), Communicate(c, |hs|, l.(agg := Some(v))));
    AlignedAfterVote(c, hs, l, v);
    forall t | 0 <= t < |hs'| ensures HoldsFrom(c, hs', l', t) && CaughtUp(c, hs', l', t) {
      if t == l.id { CommunicateHoldsOwn(c, hs, l, v); } else { CommunicateHoldsOther(c, hs, l, v, t); }
      CommunicateCatchesUp(c, hs, l, v, t);
    }
    forall key | key in l'.store ensures StoredOk(c, hs', l', key) {
      StoredOkStable(c, hs, hs', l, key);
      OldStoredOk(c, hs', l, l', key);
    }
    CommunicateKeys(c, hs, l, v);
  }

  lemma RedoKeys(l: Leader)
    ensures Redo(l).lastHash.Keys == l.lastHash.Keys
    ensures l.finished.Keys <= Redo(l).finished.Keys <= l.finished.Keys + l.lastHash.Keys
  {
  }

  lemma CommunicateKeysOf(c: Crypto, n: nat, l: Leader)
    requires CommunicateIsDefined(n, l)
    ensures Communicate(c, n, l).lastHash.Keys == l.lastHash.Keys + {l.id}
    ensures Communicate(c, n, l).finished.Keys <= l.finished.Keys + l.lastHash.Keys + {l.id}
    ensures l.id in Communicate(c, n, l).finished
  {
    hide MakeMessage, Redo;
    RedoKeys(l);
    MadeMessage(c, l, l.id);
  }

  lemma CommunicateKeys(c: Crypto, hs: seq<History>, l: Leader, v: AggVote)
    requires ReadyToCommunicate(c, hs, l, v)
    ensures Communicate(c, |hs|, l.(agg := Some(v))).lastHash.Keys == Ids(|hs|)
    ensures Communicate(c, |hs|, l.(agg := Some(v))).finished.Keys <= Ids(|hs|)
    ensures l.id in Communicate(c, |hs|, l.(agg := Some(v))).finished
  {
    hide Aligned, LocalOk, HoldsFrom, StoredOk, CaughtUp, Communicate, CommunicateIsDefined, VoteFits;
    CommunicateKeysOf(c, |hs|, l.(agg := Some(v)));
  }

  lemma CommunicateCatchesUp(c: Crypto, hs: seq<History>, l: Leader, v: AggVote, t: nat)
    requires ReadyToCommunicate(c, hs, l, v) && t < |hs|
    requires HoldsFrom(c, AfterVote(hs, l.id, v), Communicate(c, |hs|, l.(agg := Some(v))), t)
    ensures CaughtUp(c, AfterVote(hs, l.id, v), Communicate(c, |hs|, l.(agg := Some(v))), t)
  {
    hide Aligned, LocalOk, HashAt, MessageAt, StoredOk, MakeMessage;
    CommunicateEffect(c, hs, l, v, t);
    assert HoldsFrom(c, hs, l, t);
  }

  // ----- proposing -----

  /** The state in which a new view begins: waiting, with a message of every shard. */
  ghost predicate ReadyToPropose(c: Crypto, names: seq<Bytes>, hs: seq<History>, l: Leader, inp: Input) {
    && Aligned(c, hs) && Held(c, hs, l) && l.id < |hs| == |names| && hs[l.id] == l.history
    && LocalOk(l) && l.step == LeaderWait && IsComplete(l)
    && |inp.opTxs| == |names| && inp.ownQuorum == None
  }

  lemma SubsetOfSameSize<T>(a: set<T>, b: set<T>)
    requires a <= b && |a| == |b|
    ensures a == b
  {
    assert b == a + (b - a);
    assert |b - a| == 0;
  }

  /** A leader leaves view v holding exactly the view v message of every shard. */
  lemma CompleteHoldsAll(c: Crypto, hs: seq<History>, l: Leader, t: nat)
    requires Held(c, hs, l) && IsComplete(l) && t < |hs|
    ensures l.finished.Keys == Ids(|hs|) && t in l.finished
    ensures IsMessage(c, hs, t, l.view, l.id, l.finished[t])
    ensures t in l.lastHash && l.view <= |hs[t].chain| && l.lastHash[t] == HashAt(c, hs[t], l.view)
  {
    hide HashAt, MessageAt, StoredOk, CaughtUp;
    assert |l.finished.Keys| == |l.finished| && |l.lastHash.Keys| == |l.lastHash|;
    SubsetOfSameSize(l.finished.Keys, Ids(|hs|));
    assert t in Ids(|hs|);
    assert HoldsFrom(c, hs, l, t);
  }

  lemma MessageHasProofs(c: Crypto, hs: seq<History>, t: nat, w: nat, dest: nat, m: CrossShardMessage)
    requires IsMessage(c, hs, t, w, dest, m) && w >= 4
    ensures m.proofOfIntention.Some? && m.outputTxsProof.Some?
  {
  }

  lemma ProposeIsDefinedHere(c: Crypto, names: seq<Bytes>, hs: seq<History>, l: Leader, inp: Input)
    requires ReadyToPropose(c, names, hs, l, inp)
    ensures ProposeIsDefined(|names|, l)
    ensures HasAll(|names|, l.finished) && (l.view >= 4 ==> HasProofs(|names|, l.finished))
  {
    hide Aligned, Held, IsMessage, IsComplete;
    PoolLookup(l);
    forall t | 0 <= t < |names|
      ensures t in l.finished && (l.view >= 4 ==> l.finished[t].proofOfIntention.Some? && l.finished[t].outputTxsProof.Some?)
    {
      CompleteHoldsAll(c, hs, l, t);
      if l.view >= 4 { MessageHasProofs(c, hs, t, l.view, l.id, l.finished[t]); }
    }
  }

  function AddBlock(h: History, b: Block, opTxs: seq<Txs>, executed: seq<Block>, inp: Input): History {
    h.(chain := h.chain + [b], outputs := h.outputs + [opTxs], executed := executed, inputs := h.inputs + [inp])
  }

  lemma ProposeKeepsLocal(c: Crypto, names: seq<Bytes>, hs: seq<History>, l: Leader, inp: Input)
    requires ReadyToPropose(c, names, hs, l, inp) && ProposeIsDefined(|names|, l)
    ensures LocalOk(Propose(c, names, l, inp))
    ensures Propose(c, names, l, inp).history ==
            AddBlock(l.history, NextBlock(c, names, l, inp), ExecutionOutputs(l, inp), ExecutedAfter(l), inp)
    ensures Grows(l.history, Propose(c, names, l, inp).history)
  {
    hide Aligned, Held, MakeBlock, AppendBlock, Window, FetchBlock;
    WindowOfAppend(l.history.chain, NextBlock(c, names, l, inp));
    FetchSecond(l);
  }

  /** There is a block j - 2 from view 2 on, and it is the one to execute. */
  lemma FetchSecond(l: Leader)
    requires LocalOk(l)
    ensures FetchBlock(l.pool, 2).Some? <==> l.view >= 2
    ensures l.view >= 2 ==> FetchBlock(l.pool, 2).value == l.history.chain[l.view - 2]
    ensures FetchBlock(l.pool, 1) == Some(l.history.chain[l.view - 1])
  {
    FetchFromWindow(l.history.chain, 1);
    if l.view >= 2 {
      FetchFromWindow(l.history.chain, 2);
    }
  }

  lemma OwnChainAfterBlock(c: Crypto, names: seq<Bytes>, hs: seq<History>, l: Leader, inp: Input)
    requires ReadyToPropose(c, names, hs, l, inp) && ProposeIsDefined(|names|, l)
    ensures OwnChain(c, |names|, AddBlock(l.history, NextBlock(c, names, l, inp), ExecutionOutputs(l, inp), ExecutedAfter(l), inp))
  {
    hide Held, BlockHash, Window, FetchBlock, ChainHolds, RootsOf, HasAll, HasProofs;
    FetchSecond(l);
    var (h, n) := (l.history, |names|);
    var h' := AddBlock(h, NextBlock(c, names, l, inp), ExecutionOutputs(l, inp), ExecutedAfter(l), inp);
    assert OwnChain(c, n, h);
    forall u | 1 <= u <= |h'.chain| ensures BlockInPlace(c, n, h', u) {
      if u <= |h.chain| {
        assert BlockInPlace(c, n, h, u);
      }
    }
    forall w | 1 <= w <= |h'.votes| ensures VoteInPlace(c, h', w) {
      assert VoteInPlace(c, h, w);
    }
  }

  function AfterBlock(c: Crypto, names: seq<Bytes>, hs: seq<History>, l: Leader, inp: Input): seq<History>
    requires l.id < |hs| == |names| && ProposeIsDefined(|names|, l)
  {
    hs[l.id := AddBlock(l.history, NextBlock(c, names, l, inp), ExecutionOutputs(l, inp), ExecutedAfter(l), inp)]
  }

  lemma AfterBlockGrows(c: Crypto, names: seq<Bytes>, hs: seq<History>, l: Leader, inp: Input)
    requires l.id < |hs| == |names| && ProposeIsDefined(|names|, l) && hs[l.id] == l.history
    ensures GrowAll(hs, AfterBlock(c, names, hs, l, inp))
    ensures AfterBlock(c, names, hs, l, inp)[l.id].chain == l.history.chain + [NextBlock(c, names, l, inp)]
  {
  }

  /** The message that a complete leader holds of shard t, seen from the grown histories. */
  lemma HeldAfterBlock(c: Crypto, names: seq<Bytes>, hs: seq<History>, l: Leader, inp: Input, t: nat)
    requires ReadyToPropose(c, names, hs, l, inp) && ProposeIsDefined(|names|, l) && t < |hs|
    ensures t in l.finished && IsMessage(c, AfterBlock(c, names, hs, l, inp), t, l.view, l.id, l.finished[t])
    ensures l.finished[t].aggVote == VoteAt(AfterBlock(c, names, hs, l, inp)[t], l.view)
  {
    hide Aligned, Held, LocalOk, IsComplete, NextBlock, IntentionProofOf, OutputProofOf;
    CompleteHoldsAll(c, hs, l, t);
    AfterBlockGrows(c, names, hs, l, inp);
    IsMessageStable(c, hs, AfterBlock(c, names, hs, l, inp), t, l.view, l.id, l.finished[t]);
  }

  lemma NextBlockShape(c: Crypto, names: seq<Bytes>, hs: seq<History>, l: Leader, inp: Input)
    requires ReadyToPropose(c, names, hs, l, inp) && ProposeIsDefined(|names|, l)
    ensures HasAll(|names|, l.finished) && (l.view >= 4 ==> HasProofs(|names|, l.finished)) && l.id in l.finished
    ensures var b := NextBlock(c, names, l, inp);
            var n := |names|;
            && b.aggSigVote == Some(l.finished[l.id].aggVote)
            && (if l.view >= 2 then b.ci == Some(CommitIntention(LastHashes(HeldVotes(n, l.finished)), HeldVotes(n, l.finished)))
                else b.ci == None)
            && (if l.view >= 4 then b.cc == HeldCores(n, l.finished) && b.ctxs == HeldTxs(n, l.finished) && b.ctxsProof == HeldTxsProofs(n, l.finished)
                else b.cc == [] && b.ctxs == [] && b.ctxsProof == [])
  {
    hide Aligned, Held, IsComplete, HeldVotes, HeldCores, HeldTxs, HeldTxsProofs, LastHashes, HashOf, RootsOf;
    ProposeIsDefinedHere(c, names, hs, l, inp);
    PoolSize(l);
  }

  lemma PoolSize(l: Leader)
    requires LocalOk(l)
    ensures |l.pool| >= 1
    ensures |l.pool| >= 2 <==> l.view >= 2
    ensures |l.pool| >= 4 <==> l.view >= 4
  {
  }

  lemma NextBlockVotes(c: Crypto, names: seq<Bytes>, hs: seq<History>, l: Leader, inp: Input)
    requires ReadyToPropose(c, names, hs, l, inp) && ProposeIsDefined(|names|, l) && HasAll(|names|, l.finished)
    ensures AllSent(AfterBlock(c, names, hs, l, inp), l.view, l.id)
    ensures HeldVotes(|names|, l.finished) == VotesOf(AfterBlock(c, names, hs, l, inp), l.view)
  {
    hide Aligned, Held, LocalOk, IsComplete, NextBlock, MessageAt, VoteAt, ProofReady;
    var hs' := AfterBlock(c, names, hs, l, inp);
    forall t | 0 <= t < |hs'|
      ensures HasMessage(hs'[t], l.view) && ProofReady(hs'[t], l.view, l.id) && l.finished[t].aggVote == VoteAt(hs'[t], l.view)
    {
      HeldAfterBlock(c, names, hs, l, inp, t);
    }
  }

  lemma NextEntryHolds(c: Crypto, names: seq<Bytes>, hs: seq<History>, l: Leader, inp: Input, t: nat)
    requires ReadyToPropose(c, names, hs, l, inp) && ProposeIsDefined(|names|, l) && l.view >= 4 && t < |hs|
    ensures var h' := AfterBlock(c, names, hs, l, inp)[t];
            HasMessage(h', l.view) && ProofReady(h', l.view, l.id)
    ensures var b := NextBlock(c, names, l, inp);
            var m := MessageAt(c, AfterBlock(c, names, hs, l, inp)[t], t, l.view, l.id);
            && |b.cc| == |b.ctxs| == |b.ctxsProof| == |hs|
            && m.proofOfIntention.Some? && m.outputTxsProof.Some? && EntryHolds(b, t, m)
  {
    hide Aligned, Held, IsComplete, NextBlock, MessageAt, LocalOk, HeldVotes, LastHashes, ProposeIsDefined;
    NextBlockShape(c, names, hs, l, inp);
    HeldAfterBlock(c, names, hs, l, inp, t);
    MessageHasProofs(c, AfterBlock(c, names, hs, l, inp), t, l.view, l.id, l.finished[t]);
  }

  /** The new block holds the messages of the view that ends. */
  lemma NextBlockHolds(c: Crypto, names: seq<Bytes>, hs: seq<History>, l: Leader, inp: Input)
    requires ReadyToPropose(c, names, hs, l, inp) && ProposeIsDefined(|names|, l)
    ensures var hs' := AfterBlock(c, names, hs, l, inp);
            |hs'[l.id].chain| == l.view + 1 && BlockHolds(c, hs', l.id, l.view + 1)
  {
    hide Aligned, Held, IsComplete, NextBlock, MessageAt, Window, LastHashes, AllSent, ProposeIsDefined, EntryHolds;
    var hs' := AfterBlock(c, names, hs, l, inp);
    AfterBlockGrows(c, names, hs, l, inp);
    NextBlockShape(c, names, hs, l, inp);
    NextBlockVotes(c, names, hs, l, inp);
    HeldAfterBlock(c, names, hs, l, inp, l.id);
    if l.view >= 4 {
      forall t | 0 <= t < |hs'|
        ensures HasMessage(hs'[t], l.view) && ProofReady(hs'[t], l.view, l.id)
        ensures var (b, m) := (NextBlock(c, names, l, inp), MessageAt(c, hs'[t], t, l.view, l.id));
                |b.cc| == |b.ctxs| == |b.ctxsProof| == |hs'| && m.proofOfIntention.Some? && m.outputTxsProof.Some? && EntryHolds(b, t, m)
      {
        NextEntryHolds(c, names, hs, l, inp, t);
      }
    }
  }

  lemma AlignedAfterBlock(c: Crypto, names: seq<Bytes>, hs: seq<History>, l: Leader, inp: Input)
    requires ReadyToPropose(c, names, hs, l, inp) && ProposeIsDefined(|names|, l)
    ensures GrowAll(hs, AfterBlock(c, names, hs, l, inp)) && Aligned(c, AfterBlock(c, names, hs, l, inp))
  {
    hide Held, LocalOk, IsComplete, NextBlock, OwnChain, ChainHolds, BlockHolds, ProposeIsDefined;
    AfterBlockGrows(c, names, hs, l, inp);
    OwnChainAfterBlock(c, names, hs, l, inp);
    NextBlockHolds(c, names, hs, l, inp);
    AlignedWhenOneGrows(c, hs, AfterBlock(c, names, hs, l, inp), l.id);
  }

  /** The new view starts with nothing held and every shard's last hash in place. */
  lemma ProposeKeepsHeld(c: Crypto, names: seq<Bytes>, hs: seq<History>, l: Leader, inp: Input)
    requires ReadyToPropose(c, names, hs, l, inp) && ProposeIsDefined(|names|, l)
    ensures Held(c, AfterBlock(c, names, hs, l, inp), Propose(c, names, l, inp))
  {
    hide Aligned, LocalOk, IsComplete, NextBlock, MakeBlock, ProposeIsDefined, HoldsFrom, StoredOk, CaughtUp;
    var (hs', l') := (AfterBlock(c, names, hs, l, inp), Propose(c, names, l, inp));
    AlignedAfterBlock(c, names, hs, l, inp);
    forall t | 0 <= t < |hs'| ensures HoldsFrom(c, hs', l', t) {
      ProposeHoldsFrom(c, names, hs, l, inp, t);
    }
    forall key | key in l'.store ensures StoredOk(c, hs', l', key) {
      StoredOkStable(c, hs, hs', l, key);
      OldStoredOk(c, hs', l, l', key);
    }
  }

  lemma ProposeHoldsFrom(c: Crypto, names: seq<Bytes>, hs: seq<History>, l: Leader, inp: Input, t: nat)
    requires ReadyToPropose(c, names, hs, l, inp) && ProposeIsDefined(|names|, l) && t < |hs|
    ensures HoldsFrom(c, AfterBlock(c, names, hs, l, inp), Propose(c, names, l, inp), t)
  {
    hide Held, IsComplete, NextBlock, MakeBlock, ProposeIsDefined, Window, HashAt, MessageAt, ChainHolds, OwnChain;
    var hs' := AfterBlock(c, names, hs, l, inp);
    CompleteHoldsAll(c, hs, l, t);
    AlignedAfterBlock(c, names, hs, l, inp);
    HashAtStable(c, hs[t], hs'[t], l.view);
    VotesWithinChain(c, hs', t);
  }

  lemma VotesWithinChain(c: Crypto, hs: seq<History>, t: nat)
    requires Aligned(c, hs) && t < |hs|
    ensures |hs[t].votes| <= |hs[t].chain|
  {
  }
}
