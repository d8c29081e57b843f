/** One shard leader: what each handler does to its state (urd/consensus/state.go, state_transition.go,
    block_datas.go). A handler that holds the state lock is one step. */
module UrdLeader {
  import opened Bytes
  import opened Merkle
  import opened MerkleProof
  import opened UrdTypes
  import opened UrdHistory
  import opened UrdPipeline

  datatype Step = LeaderVote | LeaderWait

  /** agg is the aggregated vote of the current view once a quorum has voted. The history is written and never
      read by the protocol. */
  datatype Leader = Leader(
    id: nat, view: nat, step: Step, agg: Option<AggVote>,
    lastHash: map<nat, Bytes>, finished: map<nat, CrossShardMessage>, j1Finished: map<nat, CrossShardMessage>,
    j1Txs: seq<Txs>, j2Txs: seq<Txs>,
    store: map<(nat, Bytes), CrossShardMessage>, pool: seq<Block>, history: History)

  datatype Packet = Packet(dest: nat, msg: CrossShardMessage)

  // ----- block_data -----

  predicate IsComplete(l: Leader) {
    |l.finished| == |l.lastHash|
  }

  function ExtendHash(l: Leader, m: CrossShardMessage): Leader {
    l.(finished := l.finished[m.source := m], lastHash := l.lastHash[m.source := m.aggVote.forHash])
  }

  predicate IsStored(l: Leader, t: nat)
    requires t in l.lastHash
  {
    t != l.id && (t, l.lastHash[t]) in l.store
  }

  function Stored(l: Leader, t: nat): CrossShardMessage
    requires t in l.lastHash && IsStored(l, t)
  {
    l.store[(t, l.lastHash[t])]
  }

  /** redo_CrossShardMessage: takes every stored message that continues the hash last seen of its shard. */
  function Redo(l: Leader): Leader {
    l.(finished := l.finished + (map t | t in l.lastHash && IsStored(l, t) :: Stored(l, t)),
       lastHash := map t | t in l.lastHash :: if IsStored(l, t) then Stored(l, t).aggVote.forHash else l.lastHash[t])
  }

  lemma RedoIsLocal(l: Leader)
    ensures var r := Redo(l); r == l.(finished := r.finished, lastHash := r.lastHash)
  {
  }

  // ----- proposing -----

  predicate HasAll(n: nat, j1: map<nat, CrossShardMessage>) {
    forall t :: 0 <= t < n ==> t in j1
  }

  predicate HasProofs(n: nat, j1: map<nat, CrossShardMessage>) {
    forall t :: 0 <= t < n ==> t in j1 && j1[t].proofOfIntention.Some? && j1[t].outputTxsProof.Some?
  }

  /** make_block finds every message and proof it looks up. */
  predicate MakeBlockIsDefined(n: nat, pool: seq<Block>, id: nat, j1: map<nat, CrossShardMessage>) {
    && (|pool| >= 1 ==> id in j1)
    && (|pool| >= 2 ==> HasAll(n, j1))
    && (|pool| >= 4 ==> HasProofs(n, j1))
  }

  function HeldVotes(n: nat, j1: map<nat, CrossShardMessage>): (r: seq<AggVote>)
    requires HasAll(n, j1)
    ensures |r| == n && forall t :: 0 <= t < n ==> r[t] == j1[t].aggVote
  {
    seq(n, t requires 0 <= t < n => j1[t].aggVote)
  }

  function HeldCores(n: nat, j1: map<nat, CrossShardMessage>): (r: seq<CertificateCore>)
    requires HasProofs(n, j1)
    ensures |r| == n && forall t :: 0 <= t < n ==> r[t] == CoreFrom(j1[t])
  {
    seq(n, t requires 0 <= t < n => CoreFrom(j1[t]))
  }

  function HeldTxs(n: nat, j1: map<nat, CrossShardMessage>): (r: seq<Txs>)
    requires HasProofs(n, j1)
    ensures |r| == n && forall t :: 0 <= t < n ==> r[t] == j1[t].opTxs
  {
    seq(n, t requires 0 <= t < n => j1[t].opTxs)
  }

  function HeldTxsProofs(n: nat, j1: map<nat, CrossShardMessage>): (r: seq<OutputTxsProof>)
    requires HasProofs(n, j1)
    ensures |r| == n && forall t :: 0 <= t < n ==> r[t] == j1[t].outputTxsProof.value
  {
    seq(n, t requires 0 <= t < n => j1[t].outputTxsProof.value)
  }

  function MakeBlock(c: Crypto, names: seq<Bytes>, id: nat, view: nat, pool: seq<Block>, j1: map<nat, CrossShardMessage>,
                     opTxs: seq<Txs>, inp: Input): Block
    requires id < |names| && MakeBlockIsDefined(|names|, pool, id, j1)
  {
    var n := |names|;
    var header := Header(HashOf(c, FetchBlock(pool, 1)), names[id], view, 0, inp.time, [], [], [], [], [], [], []);
    Block(header, inp.ptxs, inp.crossShardTxs, RootsOf(c, opTxs),
          if |pool| >= 1 then Some(j1[id].aggVote) else None,
          if |pool| >= 2 then Some(CommitIntention(LastHashes(HeldVotes(n, j1)), HeldVotes(n, j1))) else None,
          if |pool| >= 4 then HeldCores(n, j1) else [],
          if |pool| >= 4 then HeldTxs(n, j1) else [],
          if |pool| >= 4 then HeldTxsProofs(n, j1) else [])
  }

  predicate ProposeIsDefined(n: nat, l: Leader) {
    MakeBlockIsDefined(n, l.pool, l.id, l.finished)
  }

  /** The outputs of executing block j - 2; there are none before there is such a block. */
  function ExecutionOutputs(l: Leader, inp: Input): seq<Txs> {
    if FetchBlock(l.pool, 2).Some? then inp.opTxs else []
  }

  function ExecutedAfter(l: Leader): seq<Block> {
    if FetchBlock(l.pool, 2).Some? then l.history.executed + [FetchBlock(l.pool, 2).value] else l.history.executed
  }

  /** The block that a proposal makes. */
  function NextBlock(c: Crypto, names: seq<Bytes>, l: Leader, inp: Input): Block
    requires l.id < |names| && ProposeIsDefined(|names|, l)
  {
    MakeBlock(c, names, l.id, l.view + 1, l.pool, l.finished, ExecutionOutputs(l, inp), inp)
  }

  /** It does not depend on the leader's own quorum. */
  lemma QuorumIsNotInBlock(c: Crypto, names: seq<Bytes>, l: Leader, inp: Input, agg: Option<AggVote>)
    requires l.id < |names| && ProposeIsDefined(|names|, l)
    ensures NextBlock(c, names, l, inp.(ownQuorum := agg)) == NextBlock(c, names, l, inp)
    ensures ExecutionOutputs(l, inp.(ownQuorum := agg)) == ExecutionOutputs(l, inp)
  {
    hide BlockHash, HeldVotes, HeldCores, HeldTxs, HeldTxsProofs;
  }

  /** doPropose, with the buffers shifted by enterNextView and the step that next_step then chooses. */
  function Propose(c: Crypto, names: seq<Bytes>, l: Leader, inp: Input): Leader
    requires l.id < |names| && ProposeIsDefined(|names|, l)
  {
    var opTxs := ExecutionOutputs(l, inp);
    var b := MakeBlock(c, names, l.id, l.view + 1, l.pool, l.finished, opTxs, inp);
    l.(view := l.view + 1,
       step := if inp.ownQuorum.Some? then LeaderWait else LeaderVote,
       agg := inp.ownQuorum,
       finished := map[], j1Finished := l.finished,
       j1Txs := opTxs, j2Txs := l.j1Txs,
       pool := AppendBlock(l.pool, b),
       history := l.history.(chain := l.history.chain + [b], outputs := l.history.outputs + [opTxs],
                             executed := ExecutedAfter(l), inputs := l.history.inputs + [inp]))
  }

  // ----- communicating -----

  predicate MessageIsDefined(l: Leader, index: nat) {
    |l.pool| >= 4 ==>
      var b := l.pool[|l.pool| - 2];
      b.ci.Some? && index < |l.j2Txs| && index < |b.opt|
  }

  /** The message that CrossShardCommunicate makes for one shard. */
  function MakeMessage(c: Crypto, l: Leader, index: nat): CrossShardMessage
    requires l.agg.Some? && MessageIsDefined(l, index)
  {
    if |l.pool| < 4 then CrossShardMessage(l.id, l.agg.value, [], None, [], None)
    else
      var b := l.pool[|l.pool| - 2];
      CrossShardMessage(l.id, l.agg.value, b.ci.value.intentionHash, Some(IntentionProofOf(c, b)),
                        l.j2Txs[index], Some(OutputProofOf(c, b, index)))
  }

  predicate CommunicateIsDefined(n: nat, l: Leader) {
    l.agg.Some? && l.id < n && forall index :: 0 <= index < n ==> MessageIsDefined(l, index)
  }

  /** The packets that go out; the leader keeps its own message. */
  function Packets(c: Crypto, n: nat, l: Leader): set<Packet>
    requires CommunicateIsDefined(n, l)
  {
    set t | 0 <= t < n && t != l.id :: Packet(t, MakeMessage(c, l, t))
  }

  function Communicate(c: Crypto, n: nat, l: Leader): Leader
    requires CommunicateIsDefined(n, l)
  {
    var l' := ExtendHash(Redo(l), MakeMessage(c, l, l.id));
    l'.(step := LeaderWait, history := l.history.(votes := l.history.votes + [l.agg.value]))
  }

  // ----- receiving -----

  /** The message is refused: invalid, from an unknown shard, or a duplicate. */
  predicate Refused(c: Crypto, n: nat, l: Leader, m: CrossShardMessage) {
    !ValidMessage(c, m) || m.source >= n || (m.source, LastHash(m.aggVote)) in l.store
  }

  /** doMessage for a CrossShardMessage: store it, and use it if it is next. */
  function Accept(l: Leader, m: CrossShardMessage): Leader {
    var l' := l.(store := l.store[(m.source, LastHash(m.aggVote)) := m]);
    if m.source !in l.finished && m.source in l.lastHash && l.lastHash[m.source] == LastHash(m.aggVote)
    then ExtendHash(l', m) else l'
  }

  // ----- handle_state_transition -----

  predicate DriveIsDefined(c: Crypto, n: nat, l: Leader) {
    match l.step
    case LeaderVote =>
      l.agg.Some? ==>
        && CommunicateIsDefined(n, l)
        && (IsComplete(Communicate(c, n, l)) ==> ProposeIsDefined(n, Communicate(c, n, l)))
    case LeaderWait => IsComplete(l) ==> ProposeIsDefined(n, l)
  }

  function Sent(c: Crypto, n: nat, l: Leader): set<Packet>
    requires DriveIsDefined(c, n, l)
  {
    if l.step == LeaderVote && l.agg.Some? then Packets(c, n, l) else {}
  }

  function DriveWait(c: Crypto, names: seq<Bytes>, l: Leader, inp: Input): Leader
    requires l.id < |names| && (IsComplete(l) ==> ProposeIsDefined(|names|, l))
  {
    if IsComplete(l) then Propose(c, names, l, inp) else l
  }

  /** One pass through the handler: communicate once a quorum has voted, then propose once every message is in. A
      fresh view has no messages, so the recursion stops there. */
  function Drive(c: Crypto, names: seq<Bytes>, l: Leader, inp: Input): Leader
    requires l.id < |names| && DriveIsDefined(c, |names|, l)
  {
    match l.step
    case LeaderVote => if l.agg.Some? then DriveWait(c, names, Communicate(c, |names|, l), inp) else l
    case LeaderWait => DriveWait(c, names, l, inp)
  }

  // ----- starting -----

  /** The shards, by position. */
  function Ids(n: nat): (ids: set<nat>)
    ensures |ids| == n && forall t: nat :: t in ids <==> t < n
  {
    if n == 0 then {} else Ids(n - 1) + {n - 1}
  }

  function Fresh(n: nat, id: nat): Leader {
    Leader(id, 0, LeaderVote, None, map t | t in Ids(n) :: [], map[], map[], [], [], map[], [], History([], [], [], [], []))
  }

  /** Start at view 0: propose the first block and wait for votes. */
  function Start(c: Crypto, names: seq<Bytes>, id: nat, inp: Input): Leader
    requires id < |names|
  {
    Propose(c, names, Fresh(|names|, id), inp).(step := LeaderVote)
  }
}
