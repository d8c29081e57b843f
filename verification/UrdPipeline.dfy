/** Every message and block of an aligned run passes the checks that receivers apply to it. */
module UrdPipeline {
  import opened Bytes
  import opened Merkle
  import opened MerkleProof
  import opened UrdTypes
  import opened UrdHistory

  lemma IntentionProofVerifies(c: Crypto, b: Block)
    requires FreshRoots(b.header) && b.ci.Some?
    ensures VerifyIntention(c, IntentionProofOf(c, b), BlockHash(c, b), Root(c.h, b.ci.value.intentionHash))
  {
    hide Root, Verify, ProofOf;
    ProofsAreComplete(c.h, BlockLeaves(c, b), COMMIT_INTENTION_LEAF);
    assert BlockLeaves(c, b)[COMMIT_INTENTION_LEAF] == IntentionHash(c, b.ci.value);
  }

  lemma ProofComputesRoot(h: HashFn, items: seq<Bytes>, i: nat)
    requires i < |items|
    ensures ComputeRootHash(h, ProofOf(h, items, i)) == Root(h, items)
  {
    AuditPathComputesRoot(h, items, i);
  }

  lemma OutputProofVerifies(c: Crypto, b: Block, txs: Txs, i: nat)
    requires FreshRoots(b.header) && i < |b.opt| && b.opt[i] == Root(c.h, txs)
    ensures VerifyOutput(c, OutputProofOf(c, b, i), BlockHash(c, b), txs)
  {
    hide Root, Verify, ProofOf, ComputeRootHash;
    ProofsAreComplete(c.h, BlockLeaves(c, b), OUTPUT_TXS_LEAF);
    ProofsAreComplete(c.h, b.opt, i);
    ProofComputesRoot(c.h, b.opt, i);
    assert BlockLeaves(c, b)[OUTPUT_TXS_LEAF] == Root(c.h, b.opt);
  }

  /** Every message of an aligned run passes CrossShardMessage.ValidateBasic. */
  lemma MessagesAreValid(c: Crypto, hs: seq<History>, t: nat, w: nat, dest: nat)
    requires Aligned(c, hs) && t < |hs| && dest < |hs| && 1 <= w <= |hs[t].votes|
    ensures HasMessage(hs[t], w) && ProofReady(hs[t], w, dest)
    ensures ValidMessage(c, MessageAt(c, hs[t], t, w, dest))
  {
    hide VerifyIntention, VerifyOutput, IntentionProofOf, OutputProofOf, BlockHash, Root;
    MessagesReady(c, hs, t, w, dest);
    if w >= 4 {
      assert VoteInPlace(c, hs[t], w);
      assert BlockInPlace(c, |hs|, hs[t], w - 1);
      var b := hs[t].chain[w - 2];
      IntentionProofVerifies(c, b);
      OutputProofVerifies(c, b, hs[t].outputs[w - 2][dest], dest);
    }
  }

  /** A block from view 5 on certifies, without dispute, the block of view v - 4 of every shard. */
  lemma CertificatesAgree(c: Crypto, hs: seq<History>, s: nat, v: nat, t: nat)
    requires Aligned(c, hs) && s < |hs| && t < |hs| && 5 <= v <= |hs[s].chain|
    ensures v - 4 <= |hs[t].chain|
    ensures FirstIntention(hs[s].chain[v - 1].cc, t) == HashAt(c, hs[t], v - 4)
    ensures !Disputed(hs[s].chain[v - 1].cc, t)
  {
    hide MessageAt, BlockHash;
    var cc := hs[s].chain[v - 1].cc;
    assert BlockHolds(c, hs, s, v);
    forall j | 0 <= j < |cc| ensures |cc[j].intentionBrief| == |hs| {
      BriefOfMessage(c, hs, j, v - 1, s);
    }
    VoteOfView(c, hs, s, v, t);
    forall j | 0 <= j < |cc| ensures cc[j].intentionBrief[t] == HashAt(c, hs[t], v - 4) {
      BriefOfMessage(c, hs, j, v - 1, s);
    }
    assert cc != [];
  }

  /** The lockstep recorded in block v: every shard has voted on its block of view v - 1. */
  lemma VoteOfView(c: Crypto, hs: seq<History>, s: nat, v: nat, t: nat)
    requires Aligned(c, hs) && s < |hs| && t < |hs| && 2 <= v <= |hs[s].chain|
    ensures v - 1 <= |hs[t].votes| <= |hs[t].chain|
  {
    assert BlockHolds(c, hs, s, v);
    assert HasMessage(hs[t], v - 1);
  }

  /** The intentions that the message of view w reports are the hashes of all shards' blocks of view w - 3. */
  lemma BriefOfMessage(c: Crypto, hs: seq<History>, j: nat, w: nat, dest: nat)
    requires Aligned(c, hs) && j < |hs| && dest < |hs| && 4 <= w <= |hs[j].votes|
    ensures HasMessage(hs[j], w) && ProofReady(hs[j], w, dest)
    ensures var brief := MessageAt(c, hs[j], j, w, dest).intentionBrief;
            |brief| == |hs| &&
            forall t :: 0 <= t < |hs| ==> w - 3 <= |hs[t].chain| && brief[t] == HashAt(c, hs[t], w - 3)
  {
    hide BlockHash, IntentionProofOf, OutputProofOf;
    MessagesReady(c, hs, j, w, dest);
    assert BlockHolds(c, hs, j, w - 1);
    forall t | 0 <= t < |hs| ensures w - 3 <= |hs[t].chain| && LastHash(VoteAt(hs[t], w - 2)) == HashAt(c, hs[t], w - 3) {
      assert HasMessage(hs[t], w - 2);
      assert VoteInPlace(c, hs[t], w - 2);
    }
  }

  lemma EntryIsValid(c: Crypto, hs: seq<History>, s: nat, v: nat, t: nat)
    requires Aligned(c, hs) && s < |hs| && t < |hs| && 5 <= v <= |hs[s].chain|
    ensures var b := hs[s].chain[v - 1];
            && |b.cc| == |b.ctxs| == |b.ctxsProof| == |hs| && b.ci.Some? && |b.ci.value.aggregatedSignatures| == |hs|
            && b.cc[t].hash == LastHash(b.ci.value.aggregatedSignatures[t])
            && |b.cc[t].intentionBrief| == |hs|
            && VerifyCore(c, b.cc[t])
            && VerifyOutput(c, b.ctxsProof[t], LastHash(b.ci.value.aggregatedSignatures[t]), b.ctxs[t])
  {
    hide VerifyIntention, VerifyOutput, IntentionProofOf, OutputProofOf, BlockHash, Root;
    assert BlockHolds(c, hs, s, v);
    VoteOfView(c, hs, s, v, t);
    MessagesAreValid(c, hs, t, v - 1, s);
    BriefOfMessage(c, hs, t, v - 1, s);
  }

  /** Every block of an aligned run passes Block.ValidateBasic, with no missing entry on the way. */
  lemma BlocksAreValid(c: Crypto, hs: seq<History>, s: nat, v: nat)
    requires Aligned(c, hs) && s < |hs| && 1 <= v <= |hs[s].chain|
    ensures ValidateIsDefined(hs[s].chain[v - 1])
    ensures ValidBlock(c, hs[s].chain[v - 1])
  {
    hide VerifyCore, VerifyOutput, Disputed, BlockHash, Root;
    var b := hs[s].chain[v - 1];
    assert BlockHolds(c, hs, s, v) && BlockInPlace(c, |hs|, hs[s], v);
    if v >= 5 {
      forall t | 0 <= t < |hs|
        ensures b.cc[t].hash == LastHash(b.ci.value.aggregatedSignatures[t]) && |b.cc[t].intentionBrief| == |hs|
        ensures VerifyCore(c, b.cc[t])
        ensures VerifyOutput(c, b.ctxsProof[t], LastHash(b.ci.value.aggregatedSignatures[t]), b.ctxs[t])
      {
        EntryIsValid(c, hs, s, v, t);
      }
    }
  }

  // ----- verify_block -----

  const WINDOW: nat := 7

  /** append_block keeps the last seven blocks. */
  function AppendBlock(pool: seq<Block>, b: Block): seq<Block> {
    if |pool| == WINDOW then pool[1..] + [b] else pool + [b]
  }

  function Window(chain: seq<Block>): seq<Block> {
    if |chain| <= WINDOW then chain else chain[|chain| - WINDOW..]
  }

  lemma WindowOfAppend(chain: seq<Block>, b: Block)
    ensures AppendBlock(Window(chain), b) == Window(chain + [b])
  {
  }

  /** fetch_block: the block that many places from the end, if it is still in the pool. */
  function FetchBlock(pool: seq<Block>, preIndex: nat): Option<Block>
    requires preIndex >= 1
  {
    if preIndex > |pool| then None else Some(pool[|pool| - preIndex])
  }

  /** A block at most seven places back is found where it should be. */
  lemma FetchFromWindow(chain: seq<Block>, preIndex: nat)
    requires 1 <= preIndex <= |chain| && preIndex <= WINDOW
    ensures FetchBlock(Window(chain), preIndex) == Some(chain[|chain| - preIndex])
  {
  }

  function HashOf(c: Crypto, b: Option<Block>): Bytes {
    if b.None? then [] else BlockHash(c, b.value)
  }

  predicate VerifyIsDefined(b: Block) {
    b.header.view >= 5 ==> b.aggSigVote.Some? && b.ci.Some?
  }

  /** verify_block against a validator's pool; n is the number of shards. */
  predicate VerifyBlock(c: Crypto, n: nat, pool: seq<Block>, b: Block)
    requires VerifyIsDefined(b)
  {
    b.header.view < 5 ||
    (&& HashOf(c, FetchBlock(pool, 2)) == LastHash(b.aggSigVote.value)
     && HashOf(c, FetchBlock(pool, 1)) == b.aggSigVote.value.forHash
     && |b.ci.value.intentionHash| == n
     && |b.cc| == n)
  }

  lemma BlockShape(c: Crypto, hs: seq<History>, s: nat, v: nat)
    requires Aligned(c, hs) && s < |hs| && 1 <= v <= |hs[s].chain|
    ensures hs[s].chain[v - 1].header.view == v
    ensures v >= 5 ==>
              var b := hs[s].chain[v - 1];
              && v - 1 <= |hs[s].votes| && b.aggSigVote == Some(hs[s].votes[v - 2])
              && b.ci.Some? && |b.ci.value.intentionHash| == |hs| && |b.cc| == |hs|
  {
    hide BlockHash;
    assert BlockHolds(c, hs, s, v);
    assert BlockInPlace(c, |hs|, hs[s], v);
    if v >= 5 {
      VoteOfView(c, hs, s, v, s);
    }
  }

  lemma VoteShape(c: Crypto, hs: seq<History>, s: nat, w: nat)
    requires Aligned(c, hs) && s < |hs| && 2 <= w <= |hs[s].votes|
    ensures w <= |hs[s].chain|
    ensures hs[s].votes[w - 1].forHash == BlockHash(c, hs[s].chain[w - 1])
    ensures LastHash(hs[s].votes[w - 1]) == BlockHash(c, hs[s].chain[w - 2])
  {
    hide BlockHash;
    assert VoteInPlace(c, hs[s], w);
  }

  /** Every block of an aligned run passes verify_block at a validator that holds the blocks before it. */
  lemma BlocksPassVerification(c: Crypto, hs: seq<History>, s: nat, v: nat)
    requires Aligned(c, hs) && s < |hs| && 1 <= v <= |hs[s].chain|
    ensures VerifyIsDefined(hs[s].chain[v - 1])
    ensures VerifyBlock(c, |hs|, Window(hs[s].chain[..v - 1]), hs[s].chain[v - 1])
  {
    hide BlockHash, Window, FetchBlock, Aligned;
    BlockShape(c, hs, s, v);
    if v >= 5 {
      VoteShape(c, hs, s, v - 1);
      FetchFromWindow(hs[s].chain[..v - 1], 1);
      FetchFromWindow(hs[s].chain[..v - 1], 2);
    }
  }
}
