/** What a message proves about the block whose hash it carries (urd/types/commit_intention.go, txs.go,
    cross_shard_data.go). Its checks do not look at the position of a proof, so the theorems say, for each position,
    exactly what passes. */
module UrdSoundness {
  import opened Bytes
  import opened Merkle
  import opened MerkleProof
  import opened MerkleBinding
  import opened MerklePositions
  import opened UrdTypes
  import opened UrdHistory
  import opened UrdPipeline
  import opened UrdLeader

  const BLOCK_LEAVES: nat := 7
  const COMMIT_TXS_LEAF: nat := 5

  /** A block as its leader makes it, after the block prev. */
  predicate IsMade(c: Crypto, b: Block, prev: Option<Block>) {
    FreshRoots(b.header) && b.header.hashPointer == HashOf(c, prev)
  }

  /** The list whose root is leaf i of the block's hash; an absent list leaves the leaf empty. */
  function ListAt(c: Crypto, b: Block, prev: Option<Block>, i: nat): Option<seq<Bytes>>
    requires i < BLOCK_LEAVES
  {
    match i
    case 0 => Some(PackageLeaves(FillInHeader(c, b)))
    case 1 => if prev.Some? then Some(BlockLeaves(c, prev.value)) else None
    case 2 => b.ptxs
    case 3 => Some(b.opt)
    case 4 => if b.ci.Some? then Some([LeftHash(c, b.ci.value), RightHash(c, b.ci.value)]) else None
    case 5 => Some([Root(c.h, TxsRoots(c, b.ctxs)), Root(c.h, ProofHashes(c, b.ctxsProof))])
    case _ => None
  }

  function LeafOf(c: Crypto, xs: Option<seq<Bytes>>): Bytes {
    if xs.Some? then Root(c.h, xs.value) else []
  }

  lemma LeavesAreRoots(c: Crypto, b: Block, prev: Option<Block>, i: nat)
    requires IsMade(c, b, prev) && i < BLOCK_LEAVES
    ensures BlockLeaves(c, b)[i] == LeafOf(c, ListAt(c, b, prev, i))
  {
    hide Root, CertificateHash, OutputTxsProofHash, VoteHash, LeftHash, RightHash, PackageLeaves;
  }

  predicate SomeCollide(h: HashFn, pairs: seq<(Bytes, Bytes)>) {
    exists i :: 0 <= i < |pairs| && Collides(h, pairs[i])
  }

  /** A proof against the hash of a block shows one of the block's leaves; with the right total it is the block's own
      proof of the leaf at its index, and only that. */
  lemma LeafIsShown(c: Crypto, b: Block, p: Proof, leaf: Bytes)
    ensures Verify(c.h, p, BlockHash(c, b), leaf) == Ok ==>
              leaf in BlockLeaves(c, b) || Collides(c.h, CollisionFrom(c.h, BlockLeaves(c, b), p, leaf))
    ensures p.total == BLOCK_LEAVES && !Collides(c.h, CollisionFrom(c.h, BlockLeaves(c, b), p, leaf)) ==>
              (Verify(c.h, p, BlockHash(c, b), leaf) == Ok <==>
               0 <= p.index < BLOCK_LEAVES && leaf == BlockLeaves(c, b)[p.index] && p == BlockProof(c, b, p.index))
  {
    hide Verify, Root, CollisionFrom, FillInHeader, Collides, ProofOf, HeaderLeaves;
    var leaves := BlockLeaves(c, b);
    if Verify(c.h, p, BlockHash(c, b), leaf) == Ok { ProofsAreSound(c.h, leaves, p, leaf); }
    if 0 <= p.index < BLOCK_LEAVES { ProofsAreComplete(c.h, leaves, p.index); }
  }

  // ----- intentions -----

  /** The pair that an intention proof shows to be under its leaf. */
  function ShownPair(c: Crypto, p: ProofOfIntention, brief: seq<Bytes>): seq<Bytes> {
    [Root(c.h, brief), p.rightHash]
  }

  function ClashAt(c: Crypto, b: Block, prev: Option<Block>, pair: seq<Bytes>, i: nat): (Bytes, Bytes)
    requires i < BLOCK_LEAVES
  {
    if ListAt(c, b, prev, i).Some? then Clash(c.h, TreeOf(pair), TreeOf(ListAt(c, b, prev, i).value)) else ([], [])
  }

  /** The string pairs to look at when an intention proof shows something else. */
  function IntentionClashes(c: Crypto, b: Block, prev: Option<Block>, p: ProofOfIntention, brief: seq<Bytes>): seq<(Bytes, Bytes)> {
    var pair := ShownPair(c, p, brief);
    [CollisionFrom(c.h, BlockLeaves(c, b), p.intentionHashProof, Root(c.h, pair))] +
    seq(BLOCK_LEAVES, i requires 0 <= i < BLOCK_LEAVES => ClashAt(c, b, prev, pair, i))
  }

  lemma NoneClash(c: Crypto, b: Block, prev: Option<Block>, p: ProofOfIntention, brief: seq<Bytes>, i: nat)
    requires !SomeCollide(c.h, IntentionClashes(c, b, prev, p, brief)) && i < BLOCK_LEAVES
    ensures var pair := ShownPair(c, p, brief);
            && !Collides(c.h, CollisionFrom(c.h, BlockLeaves(c, b), p.intentionHashProof, Root(c.h, pair)))
            && !Collides(c.h, ClashAt(c, b, prev, pair, i))
  {
    hide Collides, CollisionFrom, ClashAt, BlockLeaves, Root;
    var pairs := IntentionClashes(c, b, prev, p, brief);
    assert !Collides(c.h, pairs[0]) && !Collides(c.h, pairs[i + 1]);
  }

  lemma PairIsList(c: Crypto, xs: Option<seq<Bytes>>, pair: seq<Bytes>)
    requires xs.Some? ==> !Collides(c.h, Clash(c.h, TreeOf(pair), TreeOf(xs.value)))
    ensures Root(c.h, pair) == LeafOf(c, xs) <==> xs == Some(pair)
  {
    hide Root, Clash, TreeOf, Collides;
    if xs.Some? && Root(c.h, pair) == Root(c.h, xs.value) { RootBinds(c.h, pair, xs.value); }
  }

  /** The pair is what leaf i is the root of: the intention, the committed transactions, the outputs or the prepared
      transactions. */
  predicate IsUnder(c: Crypto, b: Block, pair: seq<Bytes>, i: nat) {
    || (i == 4 && b.ci.Some? && pair == [LeftHash(c, b.ci.value), RightHash(c, b.ci.value)])
    || (i == 5 && pair == [Root(c.h, TxsRoots(c, b.ctxs)), Root(c.h, ProofHashes(c, b.ctxsProof))])
    || (i == 3 && pair == b.opt)
    || (i == 2 && b.ptxs == Some(pair))
  }

  /** A pair hashes to no other leaf: the others are empty or the roots of longer lists. */
  lemma PairAtLeaf(c: Crypto, b: Block, prev: Option<Block>, pair: seq<Bytes>, i: nat)
    requires IsMade(c, b, prev) && i < BLOCK_LEAVES && |pair| == 2 && !Collides(c.h, ClashAt(c, b, prev, pair, i))
    ensures Root(c.h, pair) == BlockLeaves(c, b)[i] <==> IsUnder(c, b, pair, i)
  {
    hide Root, FillInHeader, Collides, Clash, TreeOf, BlockLeaves, FreshRoots, TxsRoots, ProofHashes, LeftHash, RightHash;
    var xs := ListAt(c, b, prev, i);
    LeavesAreRoots(c, b, prev, i);
    PairIsList(c, xs, pair);
    assert i == 0 ==> |xs.value| == 6 by { assert |PackageLeaves(FillInHeader(c, b))| == 6; }
    assert i == 1 && xs.Some? ==> |xs.value| == 7;
  }

  /** The proof carries the hash of its pair and points at a leaf that is the root of the pair. */
  predicate ShowsIntention(c: Crypto, b: Block, p: ProofOfIntention, brief: seq<Bytes>) {
    var (q, pair) := (p.intentionHashProof, ShownPair(c, p, brief));
    && q.leafHash == LeafHash(c.h, Root(c.h, pair))
    && exists i :: 0 <= i < BLOCK_LEAVES && PointsAt(c.h, BlockLeaves(c, b), q, i) && IsUnder(c, b, pair, i)
  }

  /** This is exactly when an intention proof passes, with any index and total. */
  lemma IntentionPassesIff(c: Crypto, b: Block, prev: Option<Block>, p: ProofOfIntention, brief: seq<Bytes>)
    requires IsMade(c, b, prev) && !SomeCollide(c.h, IntentionClashes(c, b, prev, p, brief))
    ensures VerifyIntention(c, p, BlockHash(c, b), Root(c.h, brief)) <==> ShowsIntention(c, b, p, brief)
  {
    hide Verify, Root, CollisionFrom, Collides, BlockLeaves, IsMade, LeafHash, PointsAt, IsUnder, IntentionClashes, SomeCollide, ClashAt;
    var (q, pair) := (p.intentionHashProof, ShownPair(c, p, brief));
    forall i | 0 <= i < BLOCK_LEAVES ensures Root(c.h, pair) == BlockLeaves(c, b)[i] <==> IsUnder(c, b, pair, i) {
      NoneClash(c, b, prev, p, brief, i);
      PairAtLeaf(c, b, prev, pair, i);
    }
    NoneClash(c, b, prev, p, brief, 0);
    VerifiesIff(c.h, BlockLeaves(c, b), q, Root(c.h, pair));
  }

  /** With the right total it is the block's own proof of that leaf. */
  lemma IntentionPassesAt(c: Crypto, b: Block, prev: Option<Block>, p: ProofOfIntention, brief: seq<Bytes>)
    requires IsMade(c, b, prev) && !SomeCollide(c.h, IntentionClashes(c, b, prev, p, brief))
    requires p.intentionHashProof.total == BLOCK_LEAVES
    ensures var (q, pair) := (p.intentionHashProof, ShownPair(c, p, brief));
            VerifyIntention(c, p, BlockHash(c, b), Root(c.h, brief)) <==>
              0 <= q.index < BLOCK_LEAVES && q == BlockProof(c, b, q.index) && IsUnder(c, b, pair, q.index)
  {
    hide Verify, Root, CollisionFrom, Collides, BlockLeaves, IsMade, BlockProof, IsUnder, IntentionClashes, SomeCollide, ClashAt;
    var (q, pair) := (p.intentionHashProof, ShownPair(c, p, brief));
    NoneClash(c, b, prev, p, brief, 0);
    LeafIsShown(c, b, q, Root(c.h, pair));
    if 0 <= q.index < BLOCK_LEAVES {
      NoneClash(c, b, prev, p, brief, q.index);
      PairAtLeaf(c, b, prev, pair, q.index);
    }
  }

  /** With the intention's position a passing proof shows the block's own intention. */
  lemma IntentionIsShown(c: Crypto, b: Block, prev: Option<Block>, p: ProofOfIntention, brief: seq<Bytes>)
    requires IsMade(c, b, prev) && VerifyIntention(c, p, BlockHash(c, b), Root(c.h, brief))
    requires p.intentionHashProof.total == BLOCK_LEAVES && p.intentionHashProof.index == COMMIT_INTENTION_LEAF
    requires !SomeCollide(c.h, IntentionClashes(c, b, prev, p, brief))
    ensures b.ci.Some?
    ensures brief == b.ci.value.intentionHash || Collides(c.h, Clash(c.h, TreeOf(brief), TreeOf(b.ci.value.intentionHash)))
  {
    hide VerifyIntention, Root, Collides, Clash, TreeOf, BlockLeaves, IsMade, BlockProof, TxsRoots, ProofHashes, RightHash,
      IntentionClashes, SomeCollide, BlockHash;
    IntentionPassesAt(c, b, prev, p, brief);
    var ci := b.ci.value;
    assert ShownPair(c, p, brief)[0] == Root(c.h, brief) && [LeftHash(c, ci), RightHash(c, ci)][0] == LeftHash(c, ci);
    RootBinds(c.h, brief, ci.intentionHash);
  }

  /** The proof of the leaf with the committed transactions, read as an intention proof. */
  function CommittedAsIntention(c: Crypto, b: Block): ProofOfIntention {
    ProofOfIntention(BlockProof(c, b, COMMIT_TXS_LEAF), Root(c.h, ProofHashes(c, b.ctxsProof)))
  }

  /** Without the position it need not: in every block the roots of the committed transactions pass as an intention. */
  lemma CommittedPassesAsIntention(c: Crypto, b: Block, prev: Option<Block>)
    requires IsMade(c, b, prev)
    ensures VerifyIntention(c, CommittedAsIntention(c, b), BlockHash(c, b), Root(c.h, TxsRoots(c, b.ctxs)))
  {
    hide Verify, Root, FillInHeader, FreshRoots, TxsRoots, ProofHashes, ProofOf, HeaderLeaves;
    LeavesAreRoots(c, b, prev, COMMIT_TXS_LEAF);
    ProofsAreComplete(c.h, BlockLeaves(c, b), COMMIT_TXS_LEAF);
  }

  // ----- outputs -----

  const STATE_LEAF: nat := 6

  /** There is no list under leaf i, so the leaf is empty: no block or no transactions or no intention before it, and
      always the state, whose root no block has. */
  predicate IsEmptyAt(b: Block, prev: Option<Block>, i: nat) {
    (i == 1 && prev.None?) || (i == 2 && b.ptxs.None?) || (i == 4 && b.ci.None?) || i == STATE_LEAF
  }

  lemma EmptyIsAbsent(c: Crypto, b: Block, prev: Option<Block>, i: nat)
    requires i < BLOCK_LEAVES
    ensures IsEmptyAt(b, prev, i) <==> ListAt(c, b, prev, i).None?
    ensures IsEmptyAt(b, prev, i) <==> LeafOf(c, ListAt(c, b, prev, i)) == []
  {
    hide Root, PackageLeaves, BlockLeaves, TxsRoots, ProofHashes, LeftHash, RightHash;
  }

  /** The proof carries the hash of leaf i of the block and points at it. */
  predicate ShowsLeaf(c: Crypto, b: Block, q: Proof, i: nat)
    requires i < BLOCK_LEAVES
  {
    q.leafHash == LeafHash(c.h, BlockLeaves(c, b)[i]) && PointsAt(c.h, BlockLeaves(c, b), q, i)
  }

  /** The proof points at a place where the list has the root of the transactions. */
  predicate ShowsIn(c: Crypto, xs: seq<Bytes>, q: Proof, txs: Txs) {
    exists j :: 0 <= j < |xs| && PointsAt(c.h, xs, q, j) && xs[j] == Root(c.h, txs)
  }

  predicate Carries(c: Crypto, q: Proof, leaf: Bytes) {
    q.total >= 0 && q.index >= 0 && q.leafHash == LeafHash(c.h, leaf)
  }

  /** The inner proof against a leaf of the block. */
  predicate InnerPasses(c: Crypto, xs: Option<seq<Bytes>>, q: Proof, txs: Txs) {
    Verify(c.h, q, LeafOf(c, xs), Root(c.h, txs)) == Ok
  }

  /** It passes against the root of a list exactly when it points at a place where the list has the transactions'
      root, and against an empty leaf exactly when it is broken. Either way it carries the hash of that root. */
  lemma InnerPassesIff(c: Crypto, xs: Option<seq<Bytes>>, q: Proof, txs: Txs)
    requires xs.Some? ==> !Collides(c.h, CollisionFrom(c.h, xs.value, q, Root(c.h, txs)))
    ensures InnerPasses(c, xs, q, txs) <==>
            Carries(c, q, Root(c.h, txs)) && if xs.None? then IsBroken(q) else !IsBroken(q) && ShowsIn(c, xs.value, q, txs)
  {
    hide Verify, Root, CollisionFrom, Collides, LeafHash, PointsAt, IsBroken;
    var leaf := Root(c.h, txs);
    if xs.None? {
      VerifiesNothingIff(c.h, q, leaf);
    } else {
      VerifiesIff(c.h, xs.value, q, leaf);
      if j :| 0 <= j < |xs.value| && PointsAt(c.h, xs.value, q, j) && xs.value[j] == leaf {
        PointingIsUnbroken(c.h, xs.value, q, j);
        assert Carries(c, q, leaf) <==> q.leafHash == LeafHash(c.h, leaf) by { UnbrokenIsInRange(q); }
      }
    }
  }

  lemma UnbrokenIsInRange(q: Proof)
    requires !IsBroken(q)
    ensures q.total >= 0 && q.index >= 0
  {
  }

  /** With the right inner total the place is the inner index. */
  lemma InnerPassesAt(c: Crypto, xs: seq<Bytes>, q: Proof, txs: Txs)
    requires q.total == |xs| && !Collides(c.h, CollisionFrom(c.h, xs, q, Root(c.h, txs)))
    ensures InnerPasses(c, Some(xs), q, txs) <==>
              0 <= q.index < |xs| && q == ProofOf(c.h, xs, q.index) && Root(c.h, txs) == xs[q.index]
  {
    hide Verify, Root, CollisionFrom, Collides, ProofOf;
    if Verify(c.h, q, Root(c.h, xs), Root(c.h, txs)) == Ok { ProofsAreSound(c.h, xs, q, Root(c.h, txs)); }
    if 0 <= q.index < |xs| { ProofsAreComplete(c.h, xs, q.index); }
  }

  /** An unbroken inner proof shows the transactions' root in the list under leaf i; a broken one fits an empty leaf,
      whatever the transactions. */
  predicate FitsLeaf(c: Crypto, b: Block, prev: Option<Block>, q: Proof, txs: Txs, i: nat)
    requires i < BLOCK_LEAVES
  {
    if IsBroken(q) then IsEmptyAt(b, prev, i) else !IsEmptyAt(b, prev, i) && ShowsIn(c, ListAt(c, b, prev, i).value, q, txs)
  }

  /** The outer proof shows a leaf that the inner one fits. */
  predicate ShowsOutput(c: Crypto, b: Block, prev: Option<Block>, p: OutputTxsProof, txs: Txs) {
    && Carries(c, p.optProof, Root(c.h, txs))
    && exists i :: 0 <= i < BLOCK_LEAVES && ShowsLeaf(c, b, p.blockProof, i) && FitsLeaf(c, b, prev, p.optProof, txs, i)
  }

  function InnerClash(c: Crypto, b: Block, prev: Option<Block>, q: Proof, txs: Txs, i: nat): (Bytes, Bytes)
    requires i < BLOCK_LEAVES
  {
    if ListAt(c, b, prev, i).Some? then CollisionFrom(c.h, ListAt(c, b, prev, i).value, q, Root(c.h, txs)) else ([], [])
  }

  /** The string pairs to look at when an output proof shows something else. */
  function OutputClashes(c: Crypto, b: Block, prev: Option<Block>, p: OutputTxsProof, txs: Txs): seq<(Bytes, Bytes)> {
    [CollisionFrom(c.h, BlockLeaves(c, b), p.blockProof, ComputeRootHash(c.h, p.optProof))] +
    seq(BLOCK_LEAVES, i requires 0 <= i < BLOCK_LEAVES => InnerClash(c, b, prev, p.optProof, txs, i))
  }

  lemma NoOutputClash(c: Crypto, b: Block, prev: Option<Block>, p: OutputTxsProof, txs: Txs, i: nat)
    requires !SomeCollide(c.h, OutputClashes(c, b, prev, p, txs)) && i < BLOCK_LEAVES
    ensures !Collides(c.h, CollisionFrom(c.h, BlockLeaves(c, b), p.blockProof, ComputeRootHash(c.h, p.optProof)))
    ensures ListAt(c, b, prev, i).Some? ==> !Collides(c.h, CollisionFrom(c.h, ListAt(c, b, prev, i).value, p.optProof, Root(c.h, txs)))
  {
    hide Collides, CollisionFrom, BlockLeaves, Root, ListAt, ComputeRootHash;
    var pairs := OutputClashes(c, b, prev, p, txs);
    assert !Collides(c.h, pairs[0]) && !Collides(c.h, pairs[i + 1]);
  }

  /** What the inner proof computes is leaf i exactly when it fits the leaf. */
  lemma ComputesLeafIff(c: Crypto, b: Block, prev: Option<Block>, p: OutputTxsProof, txs: Txs, i: nat)
    requires IsMade(c, b, prev) && i < BLOCK_LEAVES && !SomeCollide(c.h, OutputClashes(c, b, prev, p, txs))
    requires Carries(c, p.optProof, Root(c.h, txs))
    ensures ComputeRootHash(c.h, p.optProof) == BlockLeaves(c, b)[i] <==> FitsLeaf(c, b, prev, p.optProof, txs, i)
  {
    hide Root, LeafHash, IsBroken, ShowsIn, IsMade, BlockLeaves, ListAt, LeafOf, ComputeRootHash, OutputClashes, SomeCollide,
      CollisionFrom, Collides;
    NoOutputClash(c, b, prev, p, txs, i);
    LeavesAreRoots(c, b, prev, i);
    EmptyIsAbsent(c, b, prev, i);
    InnerPassesIff(c, ListAt(c, b, prev, i), p.optProof, txs);
  }

  lemma OutputByLeaf(c: Crypto, b: Block, p: OutputTxsProof, txs: Txs)
    requires !Collides(c.h, CollisionFrom(c.h, BlockLeaves(c, b), p.blockProof, ComputeRootHash(c.h, p.optProof)))
    ensures VerifyOutput(c, p, BlockHash(c, b), txs) <==>
            Carries(c, p.optProof, Root(c.h, txs)) &&
            exists i :: 0 <= i < BLOCK_LEAVES && ShowsLeaf(c, b, p.blockProof, i) && ComputeRootHash(c.h, p.optProof) == BlockLeaves(c, b)[i]
  {
    hide Root, CollisionFrom, Collides, BlockLeaves, ComputeRootHash, LeafHash, PointsAt;
    VerifiesIff(c.h, BlockLeaves(c, b), p.blockProof, ComputeRootHash(c.h, p.optProof));
  }

  /** This is exactly when an output proof passes, with any indices and totals. */
  lemma OutputPassesIff(c: Crypto, b: Block, prev: Option<Block>, p: OutputTxsProof, txs: Txs)
    requires IsMade(c, b, prev) && !SomeCollide(c.h, OutputClashes(c, b, prev, p, txs))
    ensures VerifyOutput(c, p, BlockHash(c, b), txs) <==> ShowsOutput(c, b, prev, p, txs)
  {
    hide VerifyOutput, BlockHash, Carries, ShowsLeaf, FitsLeaf, Root, CollisionFrom, Collides, BlockLeaves,
      ComputeRootHash, IsMade, OutputClashes, SomeCollide;
    NoOutputClash(c, b, prev, p, txs, 0);
    OutputByLeaf(c, b, p, txs);
    forall i | 0 <= i < BLOCK_LEAVES && Carries(c, p.optProof, Root(c.h, txs))
      ensures ComputeRootHash(c.h, p.optProof) == BlockLeaves(c, b)[i] <==> FitsLeaf(c, b, prev, p.optProof, txs, i)
    {
      ComputesLeafIff(c, b, prev, p, txs, i);
    }
  }

  /** With the outputs' position a passing proof shows the transactions that the block puts out at the inner index. */
  lemma OutputIsShown(c: Crypto, b: Block, prev: Option<Block>, p: OutputTxsProof, txs: Txs, outputs: seq<Txs>)
    requires IsMade(c, b, prev) && b.opt == RootsOf(c, outputs) && VerifyOutput(c, p, BlockHash(c, b), txs)
    requires p.blockProof.total == BLOCK_LEAVES && p.blockProof.index == OUTPUT_TXS_LEAF && p.optProof.total == |outputs|
    requires !SomeCollide(c.h, OutputClashes(c, b, prev, p, txs))
    ensures var j := p.optProof.index;
            0 <= j < |outputs| && (txs == outputs[j] || Collides(c.h, Clash(c.h, TreeOf(txs), TreeOf(outputs[j]))))
  {
    hide Verify, Root, CollisionFrom, Collides, BlockLeaves, IsMade, BlockProof, ComputeRootHash, ProofOf, Clash, TreeOf,
      RootsOf, OutputClashes, SomeCollide, BlockHash;
    NoOutputClash(c, b, prev, p, txs, OUTPUT_TXS_LEAF);
    LeafIsShown(c, b, p.blockProof, ComputeRootHash(c.h, p.optProof));
    LeavesAreRoots(c, b, prev, OUTPUT_TXS_LEAF);
    assert InnerPasses(c, Some(b.opt), p.optProof, txs);
    InnerPassesAt(c, b.opt, p.optProof, txs);
    RootBinds(c.h, txs, outputs[p.optProof.index]);
  }

  // ----- what passes without being in the block -----

  /** The message with the outputs for shard i, whoever gets it. */
  function OutputMessage(c: Crypto, b: Block, outputs: seq<Txs>, source: nat, vote: AggVote, i: nat): CrossShardMessage
    requires i < |outputs| && i < |b.opt|
  {
    CrossShardMessage(source, vote, [], None, outputs[i], Some(OutputProofOf(c, b, i)))
  }

  /** The receiver does not enter into the check: outputs for shard i are accepted by every leader. */
  lemma OutputsPassAnywhere(c: Crypto, n: nat, b: Block, outputs: seq<Txs>, source: nat, vote: AggVote, i: nat, l: Leader)
    requires FreshRoots(b.header) && b.opt == RootsOf(c, outputs) && i < |outputs| && LastHash(vote) == BlockHash(c, b)
    requires source < n && (source, LastHash(vote)) !in l.store
    ensures !Refused(c, n, l, OutputMessage(c, b, outputs, source, vote, i))
  {
    hide VerifyOutput, OutputProofOf, BlockHash, Root, FreshRoots;
    OutputProofVerifies(c, b, outputs[i], i);
  }

  /** A broken inner proof for the transactions, under the block's own proof of its empty state leaf. */
  function EmptyLeafProof(c: Crypto, b: Block, txs: Txs): OutputTxsProof {
    OutputTxsProof(BlockProof(c, b, STATE_LEAF), Proof(1, 1, LeafHash(c.h, Root(c.h, txs)), []))
  }

  /** Against every block, any transactions whatever pass with such a proof, and every leader accepts them. */
  lemma AnyOutputsPass(c: Crypto, n: nat, b: Block, txs: Txs, source: nat, vote: AggVote, l: Leader)
    requires FreshRoots(b.header) && LastHash(vote) == BlockHash(c, b)
    requires source < n && (source, LastHash(vote)) !in l.store
    ensures VerifyOutput(c, EmptyLeafProof(c, b, txs), BlockHash(c, b), txs)
    ensures !Refused(c, n, l, CrossShardMessage(source, vote, [], None, txs, Some(EmptyLeafProof(c, b, txs))))
  {
    hide Root, LeafHash, HeaderLeaves, AuditPath;
    ProofsAreComplete(c.h, BlockLeaves(c, b), STATE_LEAF);
    assert BlockLeaves(c, b)[STATE_LEAF] == [] by { StateLeafIsEmpty(c, b); }
  }

  lemma StateLeafIsEmpty(c: Crypto, b: Block)
    requires FreshRoots(b.header)
    ensures BlockLeaves(c, b)[STATE_LEAF] == []
  {
    hide Root;
  }

  // ----- the whole message -----

  /** What the intention proof must be, if the vote names the hash of last; a vote may also name no block. */
  predicate IntentionOk(c: Crypto, last: Option<Block>, p: ProofOfIntention, brief: seq<Bytes>) {
    if last.Some? then ShowsIntention(c, last.value, p, brief)
    else Carries(c, p.intentionHashProof, Root(c.h, ShownPair(c, p, brief))) && IsBroken(p.intentionHashProof)
  }

  predicate OutputOk(c: Crypto, last: Option<Block>, prev: Option<Block>, p: OutputTxsProof, txs: Txs) {
    if last.Some? then ShowsOutput(c, last.value, prev, p, txs)
    else
      && Carries(c, p.optProof, Root(c.h, txs)) && IsBroken(p.blockProof)
      && Carries(c, p.blockProof, ComputeRootHash(c.h, p.optProof))
  }

  /** None of the computed pairs collides. */
  predicate NoMessageClash(c: Crypto, last: Option<Block>, prev: Option<Block>, m: CrossShardMessage) {
    last.Some? ==>
      && (m.proofOfIntention.Some? ==> !SomeCollide(c.h, IntentionClashes(c, last.value, prev, m.proofOfIntention.value, m.intentionBrief)))
      && (m.outputTxsProof.Some? ==> !SomeCollide(c.h, OutputClashes(c, last.value, prev, m.outputTxsProof.value, m.opTxs)))
  }

  /** Exactly which messages pass the check: each proof that is there must show what it is for, as said above, and a proof
      that is not there leaves its brief or its transactions free. */
  lemma ValidMessageIff(c: Crypto, last: Option<Block>, prev: Option<Block>, m: CrossShardMessage)
    requires LastHash(m.aggVote) == HashOf(c, last) && (last.Some? ==> IsMade(c, last.value, prev)) && NoMessageClash(c, last, prev, m)
    ensures ValidMessage(c, m) <==>
            && (m.proofOfIntention.Some? ==> IntentionOk(c, last, m.proofOfIntention.value, m.intentionBrief))
            && (m.outputTxsProof.Some? ==> OutputOk(c, last, prev, m.outputTxsProof.value, m.opTxs))
  {
    hide Root, BlockHash, IsMade, ShowsIntention, ShowsOutput, VerifyIntention, VerifyOutput, LastHash, IntentionClashes, OutputClashes,
      SomeCollide, Carries, IsBroken, ComputeRootHash;
    if m.proofOfIntention.Some? {
      var p := m.proofOfIntention.value;
      if last.Some? {
        IntentionPassesIff(c, last.value, prev, p, m.intentionBrief);
      } else {
        IntentionAtNothing(c, p, m.intentionBrief);
      }
    }
    if m.outputTxsProof.Some? {
      var p := m.outputTxsProof.value;
      if last.Some? {
        OutputPassesIff(c, last.value, prev, p, m.opTxs);
      } else {
        OutputAtNothing(c, p, m.opTxs);
      }
    }
  }

  lemma IntentionAtNothing(c: Crypto, p: ProofOfIntention, brief: seq<Bytes>)
    ensures VerifyIntention(c, p, [], Root(c.h, brief)) <==>
            Carries(c, p.intentionHashProof, Root(c.h, ShownPair(c, p, brief))) && IsBroken(p.intentionHashProof)
  {
    hide Root, Verify, IsBroken, LeafHash;
    VerifiesNothingIff(c.h, p.intentionHashProof, Root(c.h, ShownPair(c, p, brief)));
  }

  lemma OutputAtNothing(c: Crypto, p: OutputTxsProof, txs: Txs)
    ensures VerifyOutput(c, p, [], txs) <==>
            && Carries(c, p.optProof, Root(c.h, txs)) && IsBroken(p.blockProof)
            && Carries(c, p.blockProof, ComputeRootHash(c.h, p.optProof))
  {
    hide Root, IsBroken, LeafHash, ComputeRootHash;
    VerifiesNothingIff(c.h, p.blockProof, ComputeRootHash(c.h, p.optProof));
  }

  // ----- the whole block -----

  /** The block that the vote of shard i in a block names, and the one before it; a vote may name none. */
  datatype Named = Named(last: Option<Block>, prev: Option<Block>)

  predicate NamesBlock(c: Crypto, vote: AggVote, nm: Named) {
    LastHash(vote) == HashOf(c, nm.last) && (nm.last.Some? ==> IsMade(c, nm.last.value, nm.prev))
  }

  /** Entry i of a certificate, read as a message. */
  function EntryAt(b: Block, i: nat): CrossShardMessage
    requires b.ci.Some? && i < |b.cc| && i < |b.ctxs| && i < |b.ctxsProof| && i < |b.ci.value.aggregatedSignatures|
  {
    CrossShardMessage(i, b.ci.value.aggregatedSignatures[i], b.cc[i].intentionBrief, Some(b.cc[i].mkProof), b.ctxs[i], Some(b.ctxsProof[i]))
  }

  /** Every vote in the block names one of these, and no computed pair collides. */
  predicate NamesAll(c: Crypto, b: Block, named: seq<Named>)
    requires ValidateIsDefined(b)
  {
    b.ci.Some? ==>
      && |named| == |b.ci.value.aggregatedSignatures|
      && (forall i :: 0 <= i < |named| ==> NamesBlock(c, b.ci.value.aggregatedSignatures[i], named[i]))
      && (forall i :: 0 <= i < |b.cc| ==> NoMessageClash(c, named[i].last, named[i].prev, EntryAt(b, i)))
  }

  /** From view 6 on, each intention is the last hash of its vote, and each core is of that hash and shows an intention of
      the block with it. */
  predicate CoresShow(c: Crypto, b: Block, named: seq<Named>)
    requires ValidateIsDefined(b) && NamesAll(c, b, named) && b.ci.Some?
  {
    var votes := b.ci.value.aggregatedSignatures;
    && |b.ci.value.intentionHash| == |votes| == |b.cc|
    && (forall i :: 0 <= i < |votes| ==> b.ci.value.intentionHash[i] == LastHash(votes[i]))
    && (forall i :: 0 <= i < |b.cc| ==> b.cc[i].hash == LastHash(votes[i]) && IntentionOk(c, named[i].last, b.cc[i].mkProof, b.cc[i].intentionBrief))
  }

  /** Exactly which blocks pass ValidateBasic: besides the cores, each committed list that is not disputed is shown to
      belong to the block that its vote names. */
  lemma ValidBlockIff(c: Crypto, b: Block, named: seq<Named>)
    requires ValidateIsDefined(b) && NamesAll(c, b, named)
    ensures ValidBlock(c, b) <==>
            && (b.header.view > 5 ==> CoresShow(c, b, named))
            && |b.ctxs| == |b.ctxsProof| == |b.cc|
            && forall i :: 0 <= i < |b.cc| && !Disputed(b.cc, i) ==> OutputOk(c, named[i].last, named[i].prev, b.ctxsProof[i], b.ctxs[i])
  {
    hide Root, LastHash, HashOf, VerifyIntention, VerifyOutput, IntentionOk, OutputOk, Disputed, NoMessageClash, IsMade;
    forall i | 0 <= i < |b.cc|
      ensures VerifyOutput(c, b.ctxsProof[i], LastHash(b.ci.value.aggregatedSignatures[i]), b.ctxs[i]) <==>
              OutputOk(c, named[i].last, named[i].prev, b.ctxsProof[i], b.ctxs[i])
      ensures b.cc[i].hash == LastHash(b.ci.value.aggregatedSignatures[i]) ==>
              (VerifyCore(c, b.cc[i]) <==> IntentionOk(c, named[i].last, b.cc[i].mkProof, b.cc[i].intentionBrief))
    {
      EntryShows(c, named[i].last, named[i].prev, EntryAt(b, i));
    }
  }

  lemma EntryShows(c: Crypto, last: Option<Block>, prev: Option<Block>, m: CrossShardMessage)
    requires LastHash(m.aggVote) == HashOf(c, last) && (last.Some? ==> IsMade(c, last.value, prev)) && NoMessageClash(c, last, prev, m)
    requires m.proofOfIntention.Some? && m.outputTxsProof.Some?
    ensures VerifyIntention(c, m.proofOfIntention.value, LastHash(m.aggVote), Root(c.h, m.intentionBrief)) <==>
            IntentionOk(c, last, m.proofOfIntention.value, m.intentionBrief)
    ensures VerifyOutput(c, m.outputTxsProof.value, LastHash(m.aggVote), m.opTxs) <==> OutputOk(c, last, prev, m.outputTxsProof.value, m.opTxs)
  {
    hide Root, BlockHash, IsMade, ShowsIntention, ShowsOutput, VerifyIntention, VerifyOutput, LastHash, IntentionClashes, OutputClashes,
      SomeCollide, Carries, IsBroken, ComputeRootHash;
    var (p, q) := (m.proofOfIntention.value, m.outputTxsProof.value);
    if last.Some? {
      IntentionPassesIff(c, last.value, prev, p, m.intentionBrief);
      OutputPassesIff(c, last.value, prev, q, m.opTxs);
    } else {
      IntentionAtNothing(c, p, m.intentionBrief);
      OutputAtNothing(c, q, m.opTxs);
    }
  }
}
