/** Urd's blocks and cross-shard messages, and the checks on them (urd/types). Shards are named by their
    position in the sorted list of shard ids; a Go nil byte slice is the empty byte string. */
module UrdTypes {
  import opened Bytes
  import opened Merkle
  import opened MerkleProof

  type Txs = seq<Bytes>

  datatype AggVote = AggVote(
    ok: bool, view: int, round: int, forHash: Bytes, necessaryData: seq<Bytes>, sign: Bytes, signers: Bytes)

  /** The hash function, and the protobuf encoding of an aggregated vote. */
  datatype Crypto = Crypto(h: HashFn, voteBytes: AggVote -> Bytes)

  datatype ProofOfIntention = ProofOfIntention(intentionHashProof: Proof, rightHash: Bytes)

  datatype OutputTxsProof = OutputTxsProof(blockProof: Proof, optProof: Proof)

  datatype CommitIntention = CommitIntention(intentionHash: seq<Bytes>, aggregatedSignatures: seq<AggVote>)

  datatype CertificateCore = CertificateCore(hash: Bytes, mkProof: ProofOfIntention, intentionBrief: seq<Bytes>)

  datatype CrossShardMessage = CrossShardMessage(
    source: nat, aggVote: AggVote, intentionBrief: seq<Bytes>, proofOfIntention: Option<ProofOfIntention>,
    opTxs: Txs, outputTxsProof: Option<OutputTxsProof>)

  datatype Header = Header(
    hashPointer: Bytes, chainId: Bytes, view: nat, round: nat, time: Bytes,
    prepareRoot: Bytes, outputTxsRoot: Bytes, lastAggSigRoot: Bytes, commitIntentionRoot: Bytes,
    commitCertificateRoot: Bytes, commitTxsListRoot: Bytes, stateRoot: Bytes)

  datatype Block = Block(
    header: Header, ptxs: Option<Txs>, crossShardTxs: Option<Txs>, opt: seq<Bytes>,
    aggSigVote: Option<AggVote>, ci: Option<CommitIntention>, cc: seq<CertificateCore>,
    ctxs: seq<Txs>, ctxsProof: seq<OutputTxsProof>)

  // ----- votes -----

  function LastHash(v: AggVote): Bytes {
    if |v.necessaryData| < 1 then [] else v.necessaryData[0]
  }

  function VoteHash(c: Crypto, v: AggVote): Bytes {
    Root(c.h, [c.voteBytes(v)])
  }

  // ----- hashes of the parts of a block -----

  function LittleEndian(n: int, size: nat): Bytes
    decreases size
  {
    if size == 0 then [] else [n % 256] + LittleEndian(n / 256, size - 1)
  }

  function ContentHash(c: Crypto, p: Proof): Bytes {
    Root(c.h, [LittleEndian(p.index, 8), LittleEndian(p.total, 8), p.leafHash, Root(c.h, p.aunts)])
  }

  function ProofOfIntentionHash(c: Crypto, p: ProofOfIntention): Bytes {
    Root(c.h, [ContentHash(c, p.intentionHashProof), p.rightHash])
  }

  function OutputTxsProofHash(c: Crypto, p: OutputTxsProof): Bytes {
    Root(c.h, [ContentHash(c, p.blockProof), ContentHash(c, p.optProof)])
  }

  function VoteHashes(c: Crypto, vs: seq<AggVote>): (r: seq<Bytes>)
    ensures |r| == |vs| && forall i :: 0 <= i < |vs| ==> r[i] == VoteHash(c, vs[i])
  {
    seq(|vs|, i requires 0 <= i < |vs| => VoteHash(c, vs[i]))
  }

  function CoreList(c: Crypto, x: CertificateCore): seq<Bytes> {
    [x.hash, Root(c.h, x.intentionBrief), ProofOfIntentionHash(c, x.mkProof)]
  }

  function CoreHashes(c: Crypto, xs: seq<CertificateCore>): (r: seq<Bytes>)
    ensures |r| == |xs| && forall i :: 0 <= i < |xs| ==> r[i] == Root(c.h, CoreList(c, xs[i]))
  {
    seq(|xs|, i requires 0 <= i < |xs| => Root(c.h, CoreList(c, xs[i])))
  }

  function TxsRoots(c: Crypto, xs: seq<Txs>): (r: seq<Bytes>)
    ensures |r| == |xs| && forall i :: 0 <= i < |xs| ==> r[i] == Root(c.h, xs[i])
  {
    seq(|xs|, i requires 0 <= i < |xs| => Root(c.h, xs[i]))
  }

  function ProofHashes(c: Crypto, ps: seq<OutputTxsProof>): (r: seq<Bytes>)
    ensures |r| == |ps| && forall i :: 0 <= i < |ps| ==> r[i] == OutputTxsProofHash(c, ps[i])
  {
    seq(|ps|, i requires 0 <= i < |ps| => OutputTxsProofHash(c, ps[i]))
  }

  function LeftHash(c: Crypto, ci: CommitIntention): Bytes {
    Root(c.h, ci.intentionHash)
  }

  function RightHash(c: Crypto, ci: CommitIntention): Bytes {
    Root(c.h, VoteHashes(c, ci.aggregatedSignatures))
  }

  function IntentionHash(c: Crypto, ci: CommitIntention): Bytes {
    Root(c.h, [LeftHash(c, ci), RightHash(c, ci)])
  }

  function CertificateHash(c: Crypto, cc: seq<CertificateCore>): Bytes {
    Root(c.h, CoreHashes(c, cc))
  }

  function CommitTxsRoot(c: Crypto, b: Block): Bytes {
    Root(c.h, [Root(c.h, TxsRoots(c, b.ctxs)), Root(c.h, ProofHashes(c, b.ctxsProof))])
  }

  function Fill(root: Bytes, computed: Bytes): Bytes {
    if root == [] then computed else root
  }

  /** fillInHeader: computes the roots that are still missing, and keeps those that are present. */
  function FillInHeader(c: Crypto, b: Block): Header {
    var hd := b.header;
    hd.(prepareRoot := if b.ptxs.Some? then Fill(hd.prepareRoot, Root(c.h, b.ptxs.value)) else hd.prepareRoot,
        outputTxsRoot := Fill(hd.outputTxsRoot, Root(c.h, b.opt)),
        lastAggSigRoot := if b.aggSigVote.Some? then Fill(hd.lastAggSigRoot, VoteHash(c, b.aggSigVote.value)) else hd.lastAggSigRoot,
        commitIntentionRoot := if b.ci.Some? then Fill(hd.commitIntentionRoot, IntentionHash(c, b.ci.value)) else hd.commitIntentionRoot,
        commitCertificateRoot := Fill(hd.commitCertificateRoot, CertificateHash(c, b.cc)),
        commitTxsListRoot := Fill(hd.commitTxsListRoot, CommitTxsRoot(c, b)))
  }

  function PackageLeaves(hd: Header): seq<Bytes> {
    [hd.chainId, LittleEndian(hd.view, 8), LittleEndian(hd.round, 4), hd.time, hd.lastAggSigRoot, hd.commitCertificateRoot]
  }

  const OUTPUT_TXS_LEAF: nat := 3
  const COMMIT_INTENTION_LEAF: nat := 4

  /** The leaves that calBlockHashAndProof hashes for a filled header. */
  function HeaderLeaves(c: Crypto, hd: Header): seq<Bytes> {
    [Root(c.h, PackageLeaves(hd)), hd.hashPointer, hd.prepareRoot, hd.outputTxsRoot, hd.commitIntentionRoot,
     hd.commitTxsListRoot, hd.stateRoot]
  }

  function BlockLeaves(c: Crypto, b: Block): (r: seq<Bytes>)
    ensures |r| == 7
  {
    HeaderLeaves(c, FillInHeader(c, b))
  }

  function BlockHash(c: Crypto, b: Block): (r: Bytes)
    ensures |r| == HASH_SIZE
  {
    Root(c.h, BlockLeaves(c, b))
  }

  /** ProofOfIndex: the proof of one leaf of the block hash. */
  function BlockProof(c: Crypto, b: Block, i: nat): Proof
    requires i < 7
  {
    ProofOf(c.h, BlockLeaves(c, b), i)
  }

  // ----- proofs about blocks -----

  /** GetOutputTxsProofOf; the source panics when the index is beyond the outputs. */
  function OutputProofOf(c: Crypto, b: Block, index: nat): OutputTxsProof
    requires index < |b.opt|
  {
    OutputTxsProof(BlockProof(c, b, OUTPUT_TXS_LEAF), ProofOf(c.h, b.opt, index))
  }

  function IntentionProofOf(c: Crypto, b: Block): ProofOfIntention
    requires b.ci.Some?
  {
    ProofOfIntention(BlockProof(c, b, COMMIT_INTENTION_LEAF), RightHash(c, b.ci.value))
  }

  predicate VerifyIntention(c: Crypto, p: ProofOfIntention, root: Bytes, leftHash: Bytes) {
    Verify(c.h, p.intentionHashProof, root, Root(c.h, [leftHash, p.rightHash])) == Ok
  }

  predicate VerifyOutput(c: Crypto, p: OutputTxsProof, root: Bytes, outputTxs: Txs) {
    var optRoot := ComputeRootHash(c.h, p.optProof);
    && Verify(c.h, p.optProof, optRoot, Root(c.h, outputTxs)) == Ok
    && Verify(c.h, p.blockProof, root, optRoot) == Ok
  }

  /** CrossShardMessage.ValidateBasic; an absent proof passes. */
  predicate ValidMessage(c: Crypto, m: CrossShardMessage) {
    && (m.proofOfIntention.Some? ==>
          VerifyIntention(c, m.proofOfIntention.value, LastHash(m.aggVote), Root(c.h, m.intentionBrief)))
    && (m.outputTxsProof.Some? ==>
          VerifyOutput(c, m.outputTxsProof.value, LastHash(m.aggVote), m.opTxs))
  }

  predicate VerifyCore(c: Crypto, core: CertificateCore) {
    VerifyIntention(c, core.mkProof, core.hash, Root(c.h, core.intentionBrief))
  }

  // ----- the result of a certificate -----

  /** What the first core with an opinion says about shard i. */
  function FirstIntention(cc: seq<CertificateCore>, i: nat): Bytes {
    if cc == [] then []
    else if i < |cc[0].intentionBrief| && cc[0].intentionBrief[i] != [] then cc[0].intentionBrief[i]
    else FirstIntention(cc[1..], i)
  }

  /** Some core with an opinion on shard i disagrees with the first. */
  predicate Disputed(cc: seq<CertificateCore>, i: nat) {
    exists j :: 0 <= j < |cc| && i < |cc[j].intentionBrief| && cc[j].intentionBrief[i] != [] &&
                cc[j].intentionBrief[i] != FirstIntention(cc, i)
  }

  predicate BriefsFit(cc: seq<CertificateCore>) {
    forall j :: 0 <= j < |cc| ==> |cc[j].intentionBrief| <= |cc|
  }

  // ----- Block.ValidateBasic -----

  predicate IntentionsMatchVotes(ci: CommitIntention) {
    && |ci.intentionHash| == |ci.aggregatedSignatures|
    && forall i :: 0 <= i < |ci.intentionHash| ==> ci.intentionHash[i] == LastHash(ci.aggregatedSignatures[i])
  }

  predicate CertificateMatchesVotes(c: Crypto, cc: seq<CertificateCore>, ci: CommitIntention) {
    && |cc| == |ci.aggregatedSignatures|
    && forall i :: 0 <= i < |cc| ==> cc[i].hash == LastHash(ci.aggregatedSignatures[i]) && VerifyCore(c, cc[i])
  }

  /** No index or nil dereference of ValidateBasic goes wrong. */
  predicate ValidateIsDefined(b: Block) {
    && (b.header.view > 5 ==> b.ci.Some?)
    && (b.cc != [] ==> b.ci.Some? && |b.cc| <= |b.ci.value.aggregatedSignatures| && |b.cc| <= |b.ctxs| && |b.cc| <= |b.ctxsProof|)
    && BriefsFit(b.cc)
  }

  predicate ValidBlock(c: Crypto, b: Block)
    requires ValidateIsDefined(b)
  {
    && (b.header.view > 5 ==> IntentionsMatchVotes(b.ci.value) && CertificateMatchesVotes(c, b.cc, b.ci.value))
    && |b.ctxs| == |b.ctxsProof| && |b.ctxs| == |b.cc|
    && forall i :: 0 <= i < |b.cc| && !Disputed(b.cc, i) ==>
         VerifyOutput(c, b.ctxsProof[i], LastHash(b.ci.value.aggregatedSignatures[i]), b.ctxs[i])
  }
}
