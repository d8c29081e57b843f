/** What the leaders have said so far, and the form that every block and message of a run takes in terms of
    it: which view's vote, intention, output and proof end up in which block (urd/consensus pipeline). */
module UrdHistory {
  import opened Bytes
  import opened Merkle
  import opened MerkleProof
  import opened UrdTypes

  /** What a proposal takes from outside: the outputs of executing block j - 2, transactions from the mempools, the
      clock, and a quorum if the leader's own vote already makes one. */
  datatype Input = Input(opTxs: seq<Txs>, ptxs: Option<Txs>, crossShardTxs: Option<Txs>, time: Bytes, ownQuorum: Option<AggVote>)

  /** The blocks a leader has proposed (view v at v - 1), the aggregated votes it has sent, the outputs of the
      execution that preceded each proposal, the blocks it has executed, and what each proposal took from outside. */
  datatype History = History(chain: seq<Block>, votes: seq<AggVote>, outputs: seq<seq<Txs>>, executed: seq<Block>, inputs: seq<Input>)

  /** The hash of the block of view v, and nil before the first. */
  function HashAt(c: Crypto, h: History, v: nat): Bytes
    requires v <= |h.chain|
  {
    if v == 0 then [] else BlockHash(c, h.chain[v - 1])
  }

  predicate HasMessage(h: History, w: nat) {
    && 1 <= w <= |h.votes| && w <= |h.chain| && w <= |h.outputs|
  }

  /** From view 4 on a message proves the block of the view before. */
  predicate ProofReady(h: History, w: nat, dest: nat)
    requires HasMessage(h, w)
  {
    w >= 4 ==> h.chain[w - 2].ci.Some? && dest < |h.outputs[w - 2]| && dest < |h.chain[w - 2].opt|
  }

  /** The message of view w for shard dest: the vote on block w, and from view 4 on the intention and the output
      of block w - 1 with their proofs. */
  function MessageAt(c: Crypto, h: History, source: nat, w: nat, dest: nat): CrossShardMessage
    requires HasMessage(h, w) && ProofReady(h, w, dest)
  {
    if w < 4 then CrossShardMessage(source, h.votes[w - 1], [], None, [], None)
    else
      var b := h.chain[w - 2];
      CrossShardMessage(source, h.votes[w - 1], b.ci.value.intentionHash, Some(IntentionProofOf(c, b)),
                        h.outputs[w - 2][dest], Some(OutputProofOf(c, b, dest)))
  }

  // ----- one leader's own chain -----

  predicate FreshRoots(hd: Header) {
    && hd.prepareRoot == [] && hd.outputTxsRoot == [] && hd.lastAggSigRoot == [] && hd.commitIntentionRoot == []
    && hd.commitCertificateRoot == [] && hd.commitTxsListRoot == [] && hd.stateRoot == []
  }

  function RootsOf(c: Crypto, txs: seq<Txs>): (r: seq<Bytes>)
    ensures |r| == |txs|
    ensures forall i :: 0 <= i < |txs| ==> r[i] == Root(c.h, txs[i])
  {
    seq(|txs|, i requires 0 <= i < |txs| => Root(c.h, txs[i]))
  }

  /** The block of view v: its place in the chain, and the commitment to the outputs found before it. */
  predicate BlockInPlace(c: Crypto, n: nat, h: History, v: nat)
    requires 1 <= v <= |h.chain| && |h.outputs| == |h.chain|
  {
    var b := h.chain[v - 1];
    && FreshRoots(b.header) && b.header.view == v && b.header.round == 0
    && b.header.hashPointer == HashAt(c, h, v - 1)
    && |h.outputs[v - 1]| == (if v >= 3 then n else 0)
    && b.opt == RootsOf(c, h.outputs[v - 1])
  }

  predicate VoteInPlace(c: Crypto, h: History, w: nat)
    requires 1 <= w <= |h.votes| <= |h.chain|
  {
    && h.votes[w - 1].forHash == HashAt(c, h, w)
    && LastHash(h.votes[w - 1]) == HashAt(c, h, w - 1)
  }

  ghost predicate OwnChain(c: Crypto, n: nat, h: History) {
    && |h.votes| <= |h.chain| <= |h.votes| + 1 && |h.outputs| == |h.chain|
    && (forall v :: 1 <= v <= |h.chain| ==> BlockInPlace(c, n, h, v))
    && (forall w :: 1 <= w <= |h.votes| ==> VoteInPlace(c, h, w))
  }

  // ----- what a block holds of the other shards -----

  /** Every shard's message of view w can be formed. */
  predicate AllSent(hs: seq<History>, w: nat, dest: nat) {
    forall t :: 0 <= t < |hs| ==> HasMessage(hs[t], w) && ProofReady(hs[t], w, dest)
  }

  function VoteAt(h: History, w: nat): AggVote
    requires HasMessage(h, w)
  {
    h.votes[w - 1]
  }

  function VotesOf(hs: seq<History>, w: nat): (r: seq<AggVote>)
    requires forall t :: 0 <= t < |hs| ==> HasMessage(hs[t], w)
    ensures |r| == |hs| && forall t :: 0 <= t < |hs| ==> r[t] == VoteAt(hs[t], w)
  {
    seq(|hs|, t requires 0 <= t < |hs| => VoteAt(hs[t], w))
  }

  function LastHashes(votes: seq<AggVote>): (r: seq<Bytes>)
    ensures |r| == |votes| && forall t :: 0 <= t < |votes| ==> r[t] == LastHash(votes[t])
  {
    seq(|votes|, t requires 0 <= t < |votes| => LastHash(votes[t]))
  }

  function CoreFrom(m: CrossShardMessage): CertificateCore
    requires m.proofOfIntention.Some?
  {
    CertificateCore(LastHash(m.aggVote), m.proofOfIntention.value, m.intentionBrief)
  }

  predicate EntryHolds(b: Block, t: nat, m: CrossShardMessage)
    requires t < |b.cc| && t < |b.ctxs| && t < |b.ctxsProof|
    requires m.proofOfIntention.Some? && m.outputTxsProof.Some?
  {
    b.cc[t] == CoreFrom(m) && b.ctxs[t] == m.opTxs && b.ctxsProof[t] == m.outputTxsProof.value
  }

  /** Block v of shard s holds the view v - 1 messages of all shards: their votes as the intention from view 3 on,
      their proofs as the certificate and their outputs as the transactions to commit from view 5 on. */
  ghost predicate BlockHolds(c: Crypto, hs: seq<History>, s: nat, v: nat)
    requires s < |hs| && 1 <= v <= |hs[s].chain|
  {
    var b := hs[s].chain[v - 1];
    && (v == 1 ==> b.aggSigVote == None)
    && (v >= 2 ==> AllSent(hs, v - 1, s) && b.aggSigVote == Some(hs[s].votes[v - 2]))
    && (v < 3 ==> b.ci == None)
    && (v >= 3 ==> b.ci == Some(CommitIntention(LastHashes(VotesOf(hs, v - 1)), VotesOf(hs, v - 1))))
    && (v < 5 ==> b.cc == [] && b.ctxs == [] && b.ctxsProof == [])
    && (v >= 5 ==>
          && |b.cc| == |b.ctxs| == |b.ctxsProof| == |hs|
          && (forall t :: 0 <= t < |hs| ==> EntryHolds(b, t, MessageAt(c, hs[t], t, v - 1, s))))
  }

  ghost predicate ChainHolds(c: Crypto, hs: seq<History>, s: nat)
    requires s < |hs|
  {
    forall v :: 1 <= v <= |hs[s].chain| ==> BlockHolds(c, hs, s, v)
  }

  /** All histories of a run fit together. */
  ghost predicate Aligned(c: Crypto, hs: seq<History>) {
    forall s :: 0 <= s < |hs| ==> OwnChain(c, |hs|, hs[s]) && ChainHolds(c, hs, s)
  }

  lemma MessagesReady(c: Crypto, hs: seq<History>, s: nat, w: nat, dest: nat)
    requires Aligned(c, hs) && s < |hs| && dest < |hs| && 1 <= w <= |hs[s].votes|
    ensures HasMessage(hs[s], w) && ProofReady(hs[s], w, dest)
  {
    if w >= 4 {
      assert BlockInPlace(c, |hs|, hs[s], w - 1);
      assert BlockHolds(c, hs, s, w - 1);
    }
  }

  // ----- histories grow -----

  ghost predicate Grows(h: History, h': History) {
    h.chain <= h'.chain && h.votes <= h'.votes && h.outputs <= h'.outputs
  }

  lemma MessageAtStable(c: Crypto, h: History, h': History, source: nat, w: nat, dest: nat)
    requires Grows(h, h') && HasMessage(h, w) && ProofReady(h, w, dest)
    ensures HasMessage(h', w) && ProofReady(h', w, dest)
    ensures MessageAt(c, h', source, w, dest) == MessageAt(c, h, source, w, dest)
  {
    hide IntentionProofOf, OutputProofOf;
    assert h'.votes[w - 1] == h.votes[w - 1];
    if w >= 4 {
      assert h'.chain[w - 2] == h.chain[w - 2] && h'.outputs[w - 2] == h.outputs[w - 2];
    }
  }

  lemma HashAtStable(c: Crypto, h: History, h': History, v: nat)
    requires Grows(h, h') && v <= |h.chain|
    ensures HashAt(c, h', v) == HashAt(c, h, v)
  {
  }
}
