/** Exactly what the hash of a block covers (urd/types/block.go). */
module UrdBinding {
  import opened Bytes
  import opened Merkle
  import opened MerkleProof
  import opened MerkleBinding
  import opened UrdTypes
  import opened UrdHistory

  // ----- the same as far as the hash goes -----

  /** Index and total are hashed as eight bytes. */
  predicate SameProof(p: Proof, q: Proof) {
    && LittleEndian(p.index, 8) == LittleEndian(q.index, 8) && LittleEndian(p.total, 8) == LittleEndian(q.total, 8)
    && p.leafHash == q.leafHash && p.aunts == q.aunts
  }

  predicate SameOutputProof(p: OutputTxsProof, q: OutputTxsProof) {
    SameProof(p.blockProof, q.blockProof) && SameProof(p.optProof, q.optProof)
  }

  predicate SameCore(x: CertificateCore, y: CertificateCore) {
    && x.hash == y.hash && x.intentionBrief == y.intentionBrief && x.mkProof.rightHash == y.mkProof.rightHash
    && SameProof(x.mkProof.intentionHashProof, y.mkProof.intentionHashProof)
  }

  predicate SameVote(c: Crypto, v: AggVote, w: AggVote) {
    c.voteBytes(v) == c.voteBytes(w)
  }

  predicate SameVotes(c: Crypto, vs: seq<AggVote>, ws: seq<AggVote>) {
    |vs| == |ws| && forall i :: 0 <= i < |vs| ==> SameVote(c, vs[i], ws[i])
  }

  predicate SameCores(xs: seq<CertificateCore>, ys: seq<CertificateCore>) {
    |xs| == |ys| && forall i :: 0 <= i < |xs| ==> SameCore(xs[i], ys[i])
  }

  predicate SameOutputProofs(ps: seq<OutputTxsProof>, qs: seq<OutputTxsProof>) {
    |ps| == |qs| && forall i :: 0 <= i < |ps| ==> SameOutputProof(ps[i], qs[i])
  }

  predicate SameHeader(a: Header, b: Header) {
    && a.chainId == b.chainId && a.time == b.time && a.hashPointer == b.hashPointer
    && LittleEndian(a.view, 8) == LittleEndian(b.view, 8) && LittleEndian(a.round, 4) == LittleEndian(b.round, 4)
  }

  /** The two blocks agree on everything but the cross-shard transactions and what the encodings leave out. */
  predicate SameContents(c: Crypto, a: Block, b: Block) {
    && SameHeader(a.header, b.header) && a.ptxs == b.ptxs && a.opt == b.opt
    && (if a.aggSigVote.Some? && b.aggSigVote.Some? then SameVote(c, a.aggSigVote.value, b.aggSigVote.value) else a.aggSigVote == b.aggSigVote)
    && (if a.ci.Some? && b.ci.Some?
        then a.ci.value.intentionHash == b.ci.value.intentionHash && SameVotes(c, a.ci.value.aggregatedSignatures, b.ci.value.aggregatedSignatures)
        else a.ci == b.ci)
    && SameCores(a.cc, b.cc) && a.ctxs == b.ctxs && SameOutputProofs(a.ctxsProof, b.ctxsProof)
  }

  // ----- the lists that are hashed -----

  function ProofList(c: Crypto, p: Proof): seq<Bytes> {
    [LittleEndian(p.index, 8), LittleEndian(p.total, 8), p.leafHash, Root(c.h, p.aunts)]
  }

  // ----- equal contents, equal hash -----

  lemma SameProofHash(c: Crypto, p: Proof, q: Proof)
    requires SameProof(p, q)
    ensures ContentHash(c, p) == ContentHash(c, q)
  {
    hide Root, LittleEndian;
  }

  lemma SameCoreList(c: Crypto, x: CertificateCore, y: CertificateCore)
    requires SameCore(x, y)
    ensures CoreList(c, x) == CoreList(c, y)
  {
    hide Root, SameProof, ContentHash;
    SameProofHash(c, x.mkProof.intentionHashProof, y.mkProof.intentionHashProof);
  }

  lemma SameOutputProofHash(c: Crypto, p: OutputTxsProof, q: OutputTxsProof)
    requires SameOutputProof(p, q)
    ensures OutputTxsProofHash(c, p) == OutputTxsProofHash(c, q)
  {
    hide Root, SameProof, ContentHash;
    SameProofHash(c, p.blockProof, q.blockProof);
    SameProofHash(c, p.optProof, q.optProof);
  }

  lemma SameLists(c: Crypto, a: Block, b: Block)
    requires SameContents(c, a, b)
    ensures CoreHashes(c, a.cc) == CoreHashes(c, b.cc) && ProofHashes(c, a.ctxsProof) == ProofHashes(c, b.ctxsProof)
    ensures a.ci.Some? && b.ci.Some? ==> VoteHashes(c, a.ci.value.aggregatedSignatures) == VoteHashes(c, b.ci.value.aggregatedSignatures)
  {
    hide Root, SameHeader, SameCore, SameOutputProof, CoreList, OutputTxsProofHash;
    forall i | 0 <= i < |a.cc| ensures CoreHashes(c, a.cc)[i] == CoreHashes(c, b.cc)[i] { SameCoreList(c, a.cc[i], b.cc[i]); }
    forall i | 0 <= i < |a.ctxsProof| ensures ProofHashes(c, a.ctxsProof)[i] == ProofHashes(c, b.ctxsProof)[i] {
      SameOutputProofHash(c, a.ctxsProof[i], b.ctxsProof[i]);
    }
  }

  lemma SameLeaves(c: Crypto, a: Block, b: Block)
    requires FreshRoots(a.header) && FreshRoots(b.header) && SameContents(c, a, b)
    ensures BlockLeaves(c, a) == BlockLeaves(c, b)
  {
    hide Root, LittleEndian, SameCores, SameOutputProofs, SameVotes, CoreHashes, ProofHashes, VoteHashes, TxsRoots;
    SameLists(c, a, b);
    assert CertificateHash(c, a.cc) == CertificateHash(c, b.cc) && CommitTxsRoot(c, a) == CommitTxsRoot(c, b);
    var (x, y) := (FillInHeader(c, a), FillInHeader(c, b));
    assert PackageLeaves(x) == PackageLeaves(y);
  }

  // ----- equal hash, equal contents -----

  /** Two lists that are hashed in the same place. */
  type Pair = (seq<Bytes>, seq<Bytes>)

  predicate NoneCollide(c: Crypto, pairs: seq<Pair>) {
    forall i :: 0 <= i < |pairs| ==> !Collides(c.h, Clash(c.h, TreeOf(pairs[i].0), TreeOf(pairs[i].1)))
  }

  /** Of two lists with one root, the string pair that the trees give away would have to collide. */
  lemma RootsBind(c: Crypto, xs: seq<Bytes>, ys: seq<Bytes>, pairs: seq<Pair>)
    requires NoneCollide(c, pairs) && (xs, ys) in pairs && Root(c.h, xs) == Root(c.h, ys)
    ensures xs == ys
  {
    hide Root, Clash, TreeOf, Collides;
    RootBinds(c.h, xs, ys);
  }

  function ProofPairs(c: Crypto, p: Proof, q: Proof): seq<Pair> {
    [(ProofList(c, p), ProofList(c, q)), (p.aunts, q.aunts)]
  }

  function OutputProofPairs(c: Crypto, p: OutputTxsProof, q: OutputTxsProof): seq<Pair> {
    [([ContentHash(c, p.blockProof), ContentHash(c, p.optProof)], [ContentHash(c, q.blockProof), ContentHash(c, q.optProof)])] +
    ProofPairs(c, p.blockProof, q.blockProof) + ProofPairs(c, p.optProof, q.optProof)
  }

  function CorePairs(c: Crypto, x: CertificateCore, y: CertificateCore): seq<Pair> {
    [(CoreList(c, x), CoreList(c, y)), (x.intentionBrief, y.intentionBrief),
     ([ContentHash(c, x.mkProof.intentionHashProof), x.mkProof.rightHash], [ContentHash(c, y.mkProof.intentionHashProof), y.mkProof.rightHash])] +
    ProofPairs(c, x.mkProof.intentionHashProof, y.mkProof.intentionHashProof)
  }

  lemma PartCollides(c: Crypto, part: seq<Pair>, pairs: seq<Pair>)
    requires NoneCollide(c, pairs) && forall i :: 0 <= i < |part| ==> part[i] in pairs
    ensures NoneCollide(c, part)
  {
    hide Collides, Clash, TreeOf;
  }

  lemma ProofBinds(c: Crypto, p: Proof, q: Proof)
    requires NoneCollide(c, ProofPairs(c, p, q)) && ContentHash(c, p) == ContentHash(c, q)
    ensures SameProof(p, q)
  {
    hide Root, NoneCollide, LittleEndian;
    var pairs := ProofPairs(c, p, q);
    assert pairs[0] in pairs && pairs[1] in pairs;
    RootsBind(c, ProofList(c, p), ProofList(c, q), pairs);
    assert ProofList(c, p)[3] == ProofList(c, q)[3] && ProofList(c, p)[0] == ProofList(c, q)[0] && ProofList(c, p)[1] == ProofList(c, q)[1]
      && ProofList(c, p)[2] == ProofList(c, q)[2];
    RootsBind(c, p.aunts, q.aunts, pairs);
  }

  lemma OutputProofBinds(c: Crypto, p: OutputTxsProof, q: OutputTxsProof)
    requires NoneCollide(c, OutputProofPairs(c, p, q)) && OutputTxsProofHash(c, p) == OutputTxsProofHash(c, q)
    ensures SameOutputProof(p, q)
  {
    hide Root, NoneCollide, ContentHash, ProofPairs, SameProof;
    var pairs := OutputProofPairs(c, p, q);
    assert pairs[0] in pairs;
    var (xs, ys) := ([ContentHash(c, p.blockProof), ContentHash(c, p.optProof)], [ContentHash(c, q.blockProof), ContentHash(c, q.optProof)]);
    RootsBind(c, xs, ys, pairs);
    assert xs[0] == ys[0] && xs[1] == ys[1];
    PartCollides(c, ProofPairs(c, p.blockProof, q.blockProof), pairs);
    PartCollides(c, ProofPairs(c, p.optProof, q.optProof), pairs);
    ProofBinds(c, p.blockProof, q.blockProof);
    ProofBinds(c, p.optProof, q.optProof);
  }

  lemma CoreBinds(c: Crypto, x: CertificateCore, y: CertificateCore)
    requires NoneCollide(c, CorePairs(c, x, y)) && Root(c.h, CoreList(c, x)) == Root(c.h, CoreList(c, y))
    ensures SameCore(x, y)
  {
    hide Root, NoneCollide, ContentHash, ProofPairs, SameProof;
    var pairs := CorePairs(c, x, y);
    assert pairs[0] in pairs && pairs[1] in pairs && pairs[2] in pairs;
    RootsBind(c, CoreList(c, x), CoreList(c, y), pairs);
    assert CoreList(c, x)[0] == CoreList(c, y)[0] && CoreList(c, x)[1] == CoreList(c, y)[1] && CoreList(c, x)[2] == CoreList(c, y)[2];
    RootsBind(c, x.intentionBrief, y.intentionBrief, pairs);
    var (p, q) := (x.mkProof, y.mkProof);
    var (xs, ys) := ([ContentHash(c, p.intentionHashProof), p.rightHash], [ContentHash(c, q.intentionHashProof), q.rightHash]);
    RootsBind(c, xs, ys, pairs);
    assert xs[0] == ys[0] && xs[1] == ys[1];
    PartCollides(c, ProofPairs(c, p.intentionHashProof, q.intentionHashProof), pairs);
    ProofBinds(c, p.intentionHashProof, q.intentionHashProof);
  }

  // ----- list by list -----

  function VotesPairs(c: Crypto, vs: seq<AggVote>, ws: seq<AggVote>): seq<Pair> {
    if vs == [] || ws == [] then [] else VotesPairs(c, Front(vs), Front(ws)) + [([c.voteBytes(Last(vs))], [c.voteBytes(Last(ws))])]
  }

  lemma {:induction false} VotesBind(c: Crypto, vs: seq<AggVote>, ws: seq<AggVote>)
    requires NoneCollide(c, VotesPairs(c, vs, ws)) && VoteHashes(c, vs) == VoteHashes(c, ws)
    ensures SameVotes(c, vs, ws)
    decreases |vs|
  {
    hide Root, NoneCollide;
    assert |VoteHashes(c, vs)| == |vs| && |VoteHashes(c, ws)| == |ws|;
    if vs != [] {
      var (m, pairs) := (|vs| - 1, VotesPairs(c, vs, ws));
      assert VoteHashes(c, Front(vs)) == VoteHashes(c, vs)[..m] && VoteHashes(c, Front(ws)) == VoteHashes(c, ws)[..m];
      PartCollides(c, VotesPairs(c, Front(vs), Front(ws)), pairs);
      VotesBind(c, Front(vs), Front(ws));
      assert pairs[|pairs| - 1] in pairs;
      assert VoteHashes(c, vs)[m] == VoteHashes(c, ws)[m];
      RootsBind(c, [c.voteBytes(vs[m])], [c.voteBytes(ws[m])], pairs);
      assert [c.voteBytes(vs[m])][0] == [c.voteBytes(ws[m])][0];
      forall i | 0 <= i < |vs| ensures SameVote(c, vs[i], ws[i]) {
        if i < m { assert Front(vs)[i] == vs[i] && Front(ws)[i] == ws[i]; }
      }
    }
  }

  function CoresPairs(c: Crypto, xs: seq<CertificateCore>, ys: seq<CertificateCore>): seq<Pair> {
    if xs == [] || ys == [] then [] else CoresPairs(c, Front(xs), Front(ys)) + CorePairs(c, Last(xs), Last(ys))
  }

  lemma {:induction false} CoresBind(c: Crypto, xs: seq<CertificateCore>, ys: seq<CertificateCore>)
    requires NoneCollide(c, CoresPairs(c, xs, ys)) && CoreHashes(c, xs) == CoreHashes(c, ys)
    ensures SameCores(xs, ys)
    decreases |xs|
  {
    hide Root, NoneCollide, CorePairs, SameCore, CoreList;
    assert |CoreHashes(c, xs)| == |xs| && |CoreHashes(c, ys)| == |ys|;
    if xs != [] {
      var (m, pairs) := (|xs| - 1, CoresPairs(c, xs, ys));
      assert CoreHashes(c, Front(xs)) == CoreHashes(c, xs)[..m] && CoreHashes(c, Front(ys)) == CoreHashes(c, ys)[..m];
      PartCollides(c, CoresPairs(c, Front(xs), Front(ys)), pairs);
      PartCollides(c, CorePairs(c, Last(xs), Last(ys)), pairs);
      CoresBind(c, Front(xs), Front(ys));
      assert CoreHashes(c, xs)[m] == CoreHashes(c, ys)[m];
      CoreBinds(c, xs[m], ys[m]);
      forall i | 0 <= i < |xs| ensures SameCore(xs[i], ys[i]) {
        if i < m { assert Front(xs)[i] == xs[i] && Front(ys)[i] == ys[i]; }
      }
    }
  }

  function OutputProofsPairs(c: Crypto, ps: seq<OutputTxsProof>, qs: seq<OutputTxsProof>): seq<Pair> {
    if ps == [] || qs == [] then [] else OutputProofsPairs(c, Front(ps), Front(qs)) + OutputProofPairs(c, Last(ps), Last(qs))
  }

  lemma {:induction false} OutputProofsBind(c: Crypto, ps: seq<OutputTxsProof>, qs: seq<OutputTxsProof>)
    requires NoneCollide(c, OutputProofsPairs(c, ps, qs)) && ProofHashes(c, ps) == ProofHashes(c, qs)
    ensures SameOutputProofs(ps, qs)
    decreases |ps|
  {
    hide Root, NoneCollide, OutputProofPairs, SameOutputProof, OutputTxsProofHash;
    assert |ProofHashes(c, ps)| == |ps| && |ProofHashes(c, qs)| == |qs|;
    if ps != [] {
      var (m, pairs) := (|ps| - 1, OutputProofsPairs(c, ps, qs));
      assert ProofHashes(c, Front(ps)) == ProofHashes(c, ps)[..m] && ProofHashes(c, Front(qs)) == ProofHashes(c, qs)[..m];
      PartCollides(c, OutputProofsPairs(c, Front(ps), Front(qs)), pairs);
      PartCollides(c, OutputProofPairs(c, Last(ps), Last(qs)), pairs);
      OutputProofsBind(c, Front(ps), Front(qs));
      assert ProofHashes(c, ps)[m] == ProofHashes(c, qs)[m];
      OutputProofBinds(c, ps[m], qs[m]);
      forall i | 0 <= i < |ps| ensures SameOutputProof(ps[i], qs[i]) {
        if i < m { assert Front(ps)[i] == ps[i] && Front(qs)[i] == qs[i]; }
      }
    }
  }

  function TxsPairs(xs: seq<Txs>, ys: seq<Txs>): seq<Pair> {
    if xs == [] || ys == [] then [] else TxsPairs(Front(xs), Front(ys)) + [(Last(xs), Last(ys))]
  }

  lemma {:induction false} TxsBind(c: Crypto, xs: seq<Txs>, ys: seq<Txs>)
    requires NoneCollide(c, TxsPairs(xs, ys)) && TxsRoots(c, xs) == TxsRoots(c, ys)
    ensures xs == ys
    decreases |xs|
  {
    hide Root, NoneCollide;
    assert |TxsRoots(c, xs)| == |xs| && |TxsRoots(c, ys)| == |ys|;
    if xs != [] {
      var (m, pairs) := (|xs| - 1, TxsPairs(xs, ys));
      assert TxsRoots(c, Front(xs)) == TxsRoots(c, xs)[..m] && TxsRoots(c, Front(ys)) == TxsRoots(c, ys)[..m];
      PartCollides(c, TxsPairs(Front(xs), Front(ys)), pairs);
      TxsBind(c, Front(xs), Front(ys));
      assert pairs[|pairs| - 1] in pairs;
      assert TxsRoots(c, xs)[m] == TxsRoots(c, ys)[m];
      RootsBind(c, xs[m], ys[m], pairs);
      assert xs == Front(xs) + [xs[m]] && ys == Front(ys) + [ys[m]];
    }
  }

  // ----- the block -----

  function CommitPair(c: Crypto, b: Block): seq<Bytes> {
    [Root(c.h, TxsRoots(c, b.ctxs)), Root(c.h, ProofHashes(c, b.ctxsProof))]
  }

  function CommitPairs(c: Crypto, a: Block, b: Block): seq<Pair> {
    [(CommitPair(c, a), CommitPair(c, b)), (TxsRoots(c, a.ctxs), TxsRoots(c, b.ctxs)), (ProofHashes(c, a.ctxsProof), ProofHashes(c, b.ctxsProof))] +
    TxsPairs(a.ctxs, b.ctxs) + OutputProofsPairs(c, a.ctxsProof, b.ctxsProof)
  }

  lemma CommitBinds(c: Crypto, a: Block, b: Block)
    requires NoneCollide(c, CommitPairs(c, a, b)) && CommitTxsRoot(c, a) == CommitTxsRoot(c, b)
    ensures a.ctxs == b.ctxs && SameOutputProofs(a.ctxsProof, b.ctxsProof)
  {
    hide Root, NoneCollide, TxsRoots, ProofHashes, TxsPairs, OutputProofsPairs, SameOutputProofs;
    var pairs := CommitPairs(c, a, b);
    assert pairs[0] in pairs && pairs[1] in pairs && pairs[2] in pairs;
    RootsBind(c, CommitPair(c, a), CommitPair(c, b), pairs);
    assert CommitPair(c, a)[0] == CommitPair(c, b)[0] && CommitPair(c, a)[1] == CommitPair(c, b)[1];
    RootsBind(c, TxsRoots(c, a.ctxs), TxsRoots(c, b.ctxs), pairs);
    RootsBind(c, ProofHashes(c, a.ctxsProof), ProofHashes(c, b.ctxsProof), pairs);
    PartCollides(c, TxsPairs(a.ctxs, b.ctxs), pairs);
    PartCollides(c, OutputProofsPairs(c, a.ctxsProof, b.ctxsProof), pairs);
    TxsBind(c, a.ctxs, b.ctxs);
    OutputProofsBind(c, a.ctxsProof, b.ctxsProof);
  }

  function IntentionList(c: Crypto, ci: CommitIntention): seq<Bytes> {
    [LeftHash(c, ci), RightHash(c, ci)]
  }

  function IntentionPairs(c: Crypto, x: CommitIntention, y: CommitIntention): seq<Pair> {
    [(IntentionList(c, x), IntentionList(c, y)), (x.intentionHash, y.intentionHash),
     (VoteHashes(c, x.aggregatedSignatures), VoteHashes(c, y.aggregatedSignatures))] +
    VotesPairs(c, x.aggregatedSignatures, y.aggregatedSignatures)
  }

  lemma IntentionBinds(c: Crypto, x: CommitIntention, y: CommitIntention)
    requires NoneCollide(c, IntentionPairs(c, x, y)) && IntentionHash(c, x) == IntentionHash(c, y)
    ensures x.intentionHash == y.intentionHash && SameVotes(c, x.aggregatedSignatures, y.aggregatedSignatures)
  {
    hide Root, NoneCollide, VoteHashes, VotesPairs, SameVotes;
    var pairs := IntentionPairs(c, x, y);
    assert pairs[0] in pairs && pairs[1] in pairs && pairs[2] in pairs;
    RootsBind(c, IntentionList(c, x), IntentionList(c, y), pairs);
    assert IntentionList(c, x)[0] == IntentionList(c, y)[0] && IntentionList(c, x)[1] == IntentionList(c, y)[1];
    RootsBind(c, x.intentionHash, y.intentionHash, pairs);
    RootsBind(c, VoteHashes(c, x.aggregatedSignatures), VoteHashes(c, y.aggregatedSignatures), pairs);
    PartCollides(c, VotesPairs(c, x.aggregatedSignatures, y.aggregatedSignatures), pairs);
    VotesBind(c, x.aggregatedSignatures, y.aggregatedSignatures);
  }

  function OptionPairs(xs: Option<seq<Bytes>>, ys: Option<seq<Bytes>>): seq<Pair> {
    if xs.Some? && ys.Some? then [(xs.value, ys.value)] else []
  }

  function VoteList(c: Crypto, v: Option<AggVote>): Option<seq<Bytes>> {
    if v.Some? then Some([c.voteBytes(v.value)]) else None
  }

  /** All lists that the two blocks hash in the same place. */
  function BlockPairs(c: Crypto, a: Block, b: Block): seq<Pair> {
    [(BlockLeaves(c, a), BlockLeaves(c, b)), (PackageLeaves(FillInHeader(c, a)), PackageLeaves(FillInHeader(c, b))), (a.opt, b.opt),
     (CoreHashes(c, a.cc), CoreHashes(c, b.cc))] +
    OptionPairs(a.ptxs, b.ptxs) + OptionPairs(VoteList(c, a.aggSigVote), VoteList(c, b.aggSigVote)) +
    (if a.ci.Some? && b.ci.Some? then IntentionPairs(c, a.ci.value, b.ci.value) else []) +
    CoresPairs(c, a.cc, b.cc) + CommitPairs(c, a, b)
  }

  function RootOf(c: Crypto, xs: Option<seq<Bytes>>): Bytes {
    if xs.Some? then Root(c.h, xs.value) else []
  }

  lemma OptionBinds(c: Crypto, xs: Option<seq<Bytes>>, ys: Option<seq<Bytes>>)
    requires NoneCollide(c, OptionPairs(xs, ys)) && RootOf(c, xs) == RootOf(c, ys)
    ensures xs == ys
  {
    hide Root, NoneCollide;
    if xs.Some? && ys.Some? {
      assert OptionPairs(xs, ys)[0] in OptionPairs(xs, ys);
      RootsBind(c, xs.value, ys.value, OptionPairs(xs, ys));
    }
  }

  /** The leaves of a block with fresh roots, one by one. */
  lemma LeavesAre(c: Crypto, b: Block)
    requires FreshRoots(b.header)
    ensures var (xs, ps, hd) := (BlockLeaves(c, b), PackageLeaves(FillInHeader(c, b)), b.header);
            && xs[0] == Root(c.h, ps) && xs[1] == hd.hashPointer && xs[2] == RootOf(c, b.ptxs) && xs[3] == Root(c.h, b.opt)
            && xs[4] == (if b.ci.Some? then IntentionHash(c, b.ci.value) else []) && xs[5] == CommitTxsRoot(c, b)
            && ps == [hd.chainId, LittleEndian(hd.view, 8), LittleEndian(hd.round, 4), hd.time, RootOf(c, VoteList(c, b.aggSigVote)), CertificateHash(c, b.cc)]
  {
    hide Root, LittleEndian, CertificateHash, CommitTxsRoot, IntentionHash;
  }

  lemma PartsDoNotCollide(c: Crypto, a: Block, b: Block)
    requires NoneCollide(c, BlockPairs(c, a, b))
    ensures NoneCollide(c, OptionPairs(a.ptxs, b.ptxs)) && NoneCollide(c, OptionPairs(VoteList(c, a.aggSigVote), VoteList(c, b.aggSigVote)))
    ensures a.ci.Some? && b.ci.Some? ==> NoneCollide(c, IntentionPairs(c, a.ci.value, b.ci.value))
    ensures NoneCollide(c, CoresPairs(c, a.cc, b.cc)) && NoneCollide(c, CommitPairs(c, a, b))
  {
    hide NoneCollide, OptionPairs, IntentionPairs, CoresPairs, CommitPairs, BlockLeaves, PackageLeaves, CoreHashes, VoteList;
    var pairs := BlockPairs(c, a, b);
    PartCollides(c, OptionPairs(a.ptxs, b.ptxs), pairs);
    PartCollides(c, OptionPairs(VoteList(c, a.aggSigVote), VoteList(c, b.aggSigVote)), pairs);
    if a.ci.Some? && b.ci.Some? { PartCollides(c, IntentionPairs(c, a.ci.value, b.ci.value), pairs); }
    PartCollides(c, CoresPairs(c, a.cc, b.cc), pairs);
    PartCollides(c, CommitPairs(c, a, b), pairs);
  }

  lemma FirstPairs(c: Crypto, a: Block, b: Block)
    ensures var pairs := BlockPairs(c, a, b);
            && (BlockLeaves(c, a), BlockLeaves(c, b)) in pairs && (PackageLeaves(FillInHeader(c, a)), PackageLeaves(FillInHeader(c, b))) in pairs
            && (a.opt, b.opt) in pairs && (CoreHashes(c, a.cc), CoreHashes(c, b.cc)) in pairs
  {
    hide OptionPairs, IntentionPairs, CoresPairs, CommitPairs, BlockLeaves, PackageLeaves, CoreHashes, VoteList;
    var pairs := BlockPairs(c, a, b);
    assert pairs[0] in pairs && pairs[1] in pairs && pairs[2] in pairs && pairs[3] in pairs;
  }

  lemma LeavesBind(c: Crypto, a: Block, b: Block)
    requires FreshRoots(a.header) && FreshRoots(b.header) && BlockHash(c, a) == BlockHash(c, b) && NoneCollide(c, BlockPairs(c, a, b))
    ensures SameHeader(a.header, b.header) && a.opt == b.opt && RootOf(c, a.ptxs) == RootOf(c, b.ptxs)
    ensures RootOf(c, VoteList(c, a.aggSigVote)) == RootOf(c, VoteList(c, b.aggSigVote))
    ensures (if a.ci.Some? then IntentionHash(c, a.ci.value) else []) == (if b.ci.Some? then IntentionHash(c, b.ci.value) else [])
    ensures CommitTxsRoot(c, a) == CommitTxsRoot(c, b) && CoreHashes(c, a.cc) == CoreHashes(c, b.cc)
  {
    hide Root, NoneCollide, BlockPairs, LittleEndian, BlockLeaves, PackageLeaves, CommitTxsRoot, IntentionHash, CoreHashes, RootOf, VoteList,
      FreshRoots;
    var pairs := BlockPairs(c, a, b);
    FirstPairs(c, a, b);
    LeavesAre(c, a);
    LeavesAre(c, b);
    RootsBind(c, BlockLeaves(c, a), BlockLeaves(c, b), pairs);
    var (xs, ys) := (PackageLeaves(FillInHeader(c, a)), PackageLeaves(FillInHeader(c, b)));
    RootsBind(c, xs, ys, pairs);
    RootsBind(c, a.opt, b.opt, pairs);
    assert xs[0] == ys[0] && xs[1] == ys[1] && xs[2] == ys[2] && xs[3] == ys[3] && xs[4] == ys[4] && xs[5] == ys[5];
    RootsBind(c, CoreHashes(c, a.cc), CoreHashes(c, b.cc), pairs);
  }

  lemma NoIntentionHash(c: Crypto, ci: CommitIntention)
    ensures IntentionHash(c, ci) != []
  {
  }

  lemma HashBinds(c: Crypto, a: Block, b: Block)
    requires FreshRoots(a.header) && FreshRoots(b.header) && BlockHash(c, a) == BlockHash(c, b) && NoneCollide(c, BlockPairs(c, a, b))
    ensures SameContents(c, a, b)
  {
    hide Root, NoneCollide, BlockPairs, BlockHash, FreshRoots, SameHeader, SameCores, SameOutputProofs, SameVotes, OptionPairs, IntentionPairs,
      CoresPairs, CommitPairs, IntentionHash, CommitTxsRoot, CoreHashes, RootOf;
    LeavesBind(c, a, b);
    PartsDoNotCollide(c, a, b);
    OptionBinds(c, a.ptxs, b.ptxs);
    OptionBinds(c, VoteList(c, a.aggSigVote), VoteList(c, b.aggSigVote));
    if a.aggSigVote.Some? && b.aggSigVote.Some? {
      assert VoteList(c, a.aggSigVote).value[0] == VoteList(c, b.aggSigVote).value[0];
    }
    if a.ci.Some? { NoIntentionHash(c, a.ci.value); }
    if b.ci.Some? { NoIntentionHash(c, b.ci.value); }
    if a.ci.Some? && b.ci.Some? { IntentionBinds(c, a.ci.value, b.ci.value); }
    CoresBind(c, a.cc, b.cc);
    CommitBinds(c, a, b);
  }

  /** Two blocks as leaders make them have one hash exactly when they agree on chain, time, the block before, view and round,
      transactions, outputs, last vote, intention, certificate and committed transactions with their proofs; or one of the
      computed string pairs collides. Their cross-shard transactions may differ. */
  lemma HashCoversContents(c: Crypto, a: Block, b: Block)
    requires FreshRoots(a.header) && FreshRoots(b.header) && NoneCollide(c, BlockPairs(c, a, b))
    ensures BlockHash(c, a) == BlockHash(c, b) <==> SameContents(c, a, b)
  {
    hide Root, NoneCollide, BlockPairs, FreshRoots, SameContents, BlockLeaves;
    if BlockHash(c, a) == BlockHash(c, b) { HashBinds(c, a, b); }
    if SameContents(c, a, b) { SameLeaves(c, a, b); }
  }

  // ----- roots that are present -----

  predicate HasRoots(hd: Header) {
    && hd.prepareRoot != [] && hd.outputTxsRoot != [] && hd.lastAggSigRoot != [] && hd.commitIntentionRoot != []
    && hd.commitCertificateRoot != [] && hd.commitTxsListRoot != []
  }

  /** Filling the header in does not change the hash. */
  lemma FilledHasSameHash(c: Crypto, b: Block)
    ensures BlockHash(c, b.(header := FillInHeader(c, b))) == BlockHash(c, b)
  {
    hide Root, CertificateHash, TxsRoots, ProofHashes, IntentionHash, VoteHash, LittleEndian;
    assert FillInHeader(c, b.(header := FillInHeader(c, b))) == FillInHeader(c, b);
  }

  /** If the header brings all roots, the hash covers the header alone, whatever the block contains. */
  lemma RootsHideContents(c: Crypto, a: Block, b: Block)
    requires HasRoots(b.header) && a.header == b.header
    ensures BlockHash(c, a) == BlockHash(c, b)
  {
    hide Root, CertificateHash, CommitTxsRoot, IntentionHash, VoteHash, LittleEndian;
    assert FillInHeader(c, a) == FillInHeader(c, b);
  }
}
