/** The leader as the program runs it: an object whose handlers update its fields step by step
    (urd/consensus/state.go, state_transition.go, block_datas.go, urd/types/commit_certificate.go). Each
    method is tied to the function of UrdLeader that the runs are made of. */
module UrdNode {
  import opened Bytes
  import opened UrdTypes
  import opened UrdHistory
  import opened UrdPipeline
  import opened UrdLeader
  import opened UrdVotes
  import opened UrdVoting
  import opened UrdChecks

  class State {
    const c: Crypto
    const shards: seq<Bytes>
    const id: nat
    const k: Committee

    var view: nat
    var step: Step
    var agg: Option<AggVote>
    var lastHash: map<nat, Bytes>
    var finished: map<nat, CrossShardMessage>
    var j1Finished: map<nat, CrossShardMessage>
    var j1Txs: seq<Txs>
    var j2Txs: seq<Txs>
    var store: map<(nat, Bytes), CrossShardMessage>
    var pool: seq<Block>
    var outbox: set<Packet>
    var hotStuff: HeightData
    ghost var history: History

    ghost function Abs(): Leader
      reads this
    {
      Leader(id, view, step, agg, lastHash, finished, j1Finished, j1Txs, j2Txs, store, pool, history)
    }

    ghost predicate Valid()
      reads this
    {
      id < |shards| && id in lastHash && StoreIsKeyed(store)
    }

    /** The leader with the votes on its block. */
    ghost function Votes(): Voting
      reads this, hotStuff, hotStuff.votes
    {
      Voting(Abs(), hotStuff.Abs())
    }

    ghost predicate Ready()
      reads this, hotStuff, hotStuff.votes
    {
      Valid() && k.me < |k.w| && hotStuff.w == k.w && hotStuff.Valid()
    }

    /** NewState, before Start. */
    constructor (c: Crypto, shards: seq<Bytes>, id: nat, k: Committee)
      requires id < |shards| && k.me < |k.w|
      ensures Ready() && Abs() == Fresh(|shards|, id) && outbox == {} && fresh(hotStuff) && fresh(hotStuff.votes)
      ensures this.c == c && this.shards == shards && this.k == k
    {
      this.c, this.shards, this.id, this.k := c, shards, id, k;
      hotStuff := new HeightData(k.w, 0, []);
      view, step, agg := 0, LeaderVote, None;
      lastHash := map t | t in Ids(|shards|) :: [];
      finished, j1Finished := map[], map[];
      j1Txs, j2Txs := [], [];
      store, pool, outbox := map[], [], {};
      history := History([], [], [], [], []);
    }

    method ExtendHash(m: CrossShardMessage)
      requires Valid()
      modifies this`finished, this`lastHash
      ensures Valid() && Abs() == UrdLeader.ExtendHash(old(Abs()), m)
    {
      finished := finished[m.source := m];
      lastHash := lastHash[m.source := m.aggVote.forHash];
    }

    /** redo_CrossShardMessage: the shards are taken in any order. */
    method Redo()
      requires Valid()
      modifies this`finished, this`lastHash
      ensures Valid() && Abs() == UrdLeader.Redo(old(Abs()))
    {
      hide RedoOf, UrdLeader.Redo, UrdLeader.ExtendHash;
      ghost var l := Abs();
      var todo := lastHash.Keys;
      RedoOfNone(l);
      assert l.lastHash.Keys - todo == {};
      while todo != {}
        invariant todo <= l.lastHash.Keys == lastHash.Keys
        invariant Valid() && Abs() == RedoOf(l, l.lastHash.Keys - todo)
        decreases |todo|
      {
        var t :| t in todo;
        RedoOfOne(l, l.lastHash.Keys - todo, t);
        assert l.lastHash.Keys - (todo - {t}) == l.lastHash.Keys - todo + {t};
        todo := todo - {t};
        if t != id && (t, lastHash[t]) in store {
          ExtendHash(store[(t, lastHash[t])]);
        }
      }
      assert l.lastHash.Keys - todo == l.lastHash.Keys;
      RedoOfAll(l);
    }

    /** fetch_block: while the pool is the end of a chain, the block that many places from the chain's end. */
    method Fetch(preIndex: nat) returns (b: Option<Block>)
      requires preIndex >= 1
      ensures b == FetchBlock(pool, preIndex)
      ensures forall chain :: pool == Window(chain) && preIndex <= |chain| && preIndex <= WINDOW ==> b == Some(chain[|chain| - preIndex])
    {
      if preIndex > |pool| { return None; }
      return Some(pool[|pool| - preIndex]);
    }

    /** append_block: the pool stays the end of the chain it was the end of. */
    method Append(b: Block)
      modifies this`pool
      ensures pool == AppendBlock(old(pool), b)
      ensures forall chain :: old(pool) == Window(chain) ==> pool == Window(chain + [b])
    {
      if |pool| == WINDOW {
        pool := pool[1..] + [b];
      } else {
        pool := pool + [b];
      }
    }

    /** make_block, from the messages of the view that ended and the outputs of the execution. */
    method MakeBlock(opTxs: seq<Txs>, inp: Input) returns (b: Block)
      requires Valid() && MakeBlockIsDefined(|shards|, pool, id, j1Finished)
      modifies this`j1Txs
      ensures b == UrdLeader.MakeBlock(c, shards, id, view, pool, j1Finished, opTxs, inp)
      ensures b.ptxs == inp.ptxs && b.crossShardTxs == inp.crossShardTxs && b.header.time == inp.time && b.header.chainId == shards[id]
      ensures j1Txs == opTxs
    {
      hide BlockHash;
      var last := Fetch(1);
      var header := Header(HashOf(c, last), shards[id], view, 0, inp.time, [], [], [], [], [], [], []);
      var vote: Option<AggVote> := None;
      if |pool| >= 1 {
        vote := Some(j1Finished[id].aggVote);
      }
      var opt := RootsOf(c, opTxs);
      j1Txs := opTxs;
      var ci: Option<CommitIntention> := None;
      if |pool| >= 2 {
        var intention := CollectIntention();
        ci := Some(intention);
      }
      var cc: seq<CertificateCore>, ctxs: seq<Txs>, ctxsProof: seq<OutputTxsProof> := [], [], [];
      if |pool| >= 4 {
        cc, ctxs, ctxsProof := CollectCertificate();
      }
      b := Block(header, inp.ptxs, inp.crossShardTxs, opt, vote, ci, cc, ctxs, ctxsProof);
    }

    method CollectIntention() returns (ci: CommitIntention)
      requires HasAll(|shards|, j1Finished)
      ensures ci == CommitIntention(LastHashes(HeldVotes(|shards|, j1Finished)), HeldVotes(|shards|, j1Finished))
    {
      var votes: seq<AggVote>, hashes: seq<Bytes> := [], [];
      for t := 0 to |shards|
        invariant |votes| == |hashes| == t
        invariant forall k :: 0 <= k < t ==> votes[k] == j1Finished[k].aggVote && hashes[k] == LastHash(j1Finished[k].aggVote)
      {
        votes := votes + [j1Finished[t].aggVote];
        hashes := hashes + [LastHash(j1Finished[t].aggVote)];
      }
      assert votes == HeldVotes(|shards|, j1Finished);
      assert hashes == LastHashes(votes);
      ci := CommitIntention(hashes, votes);
    }

    method CollectCertificate() returns (cc: seq<CertificateCore>, ctxs: seq<Txs>, proofs: seq<OutputTxsProof>)
      requires HasProofs(|shards|, j1Finished)
      ensures cc == HeldCores(|shards|, j1Finished) && ctxs == HeldTxs(|shards|, j1Finished)
      ensures proofs == HeldTxsProofs(|shards|, j1Finished)
    {
      hide CoreFrom;
      cc, ctxs, proofs := [], [], [];
      for t := 0 to |shards|
        invariant |cc| == |ctxs| == |proofs| == t
        invariant forall k :: 0 <= k < t ==> cc[k] == CoreFrom(j1Finished[k])
        invariant forall k :: 0 <= k < t ==> ctxs[k] == j1Finished[k].opTxs && proofs[k] == j1Finished[k].outputTxsProof.value
      {
        cc := cc + [CoreFrom(j1Finished[t])];
        ctxs := ctxs + [j1Finished[t].opTxs];
        proofs := proofs + [j1Finished[t].outputTxsProof.value];
      }
    }

    /** block_data.next and EnterNewView. */
    method EnterNextView()
      requires Valid()
      modifies this`view, this`agg, this`finished, this`j1Finished, this`j1Txs, this`j2Txs, this`hotStuff
      ensures view == old(view) + 1 && agg == None && finished == map[] && j1Finished == old(finished)
      ensures j1Txs == [] && j2Txs == old(j1Txs)
      ensures fresh(hotStuff) && fresh(hotStuff.votes) && hotStuff.w == k.w && hotStuff.view == view && hotStuff.Valid() && hotStuff.Abs() == NewBallot(view, [])
    {
      j1Finished, finished := finished, map[];
      j1Txs, j2Txs := [], j1Txs;
      view, agg := view + 1, None;
      hotStuff := new HeightData(k.w, view, []);
    }

    /** IsQuorum and GetMaj23. */
    method Quorum() returns (agg: Option<AggVote>)
      requires hotStuff.Valid() && hotStuff.w == k.w
      ensures agg == Agg(k, hotStuff.Abs())
    {
      hide Maj23, HeightData.Valid;
      var votes := CastBy(hotStuff.votes[..]);
      agg := hotStuff.GetMaj23(k.combine(votes).0, k.combine(votes).1);
    }

    /** The proposer's own vote on its block, which may already be a quorum. */
    method VoteForOwn(b: Block)
      requires k.me < |k.w| && hotStuff.w == k.w && hotStuff.view == view && hotStuff.Valid() && hotStuff.Abs() == NewBallot(view, [])
      modifies this`agg, hotStuff, hotStuff.votes
      ensures hotStuff.Valid() && hotStuff.votes == old(hotStuff.votes)
      ensures hotStuff.Abs() == Cast(k.w, NewBallot(view, BlockHash(c, b)), OwnVote(k.me, view, BlockHash(c, b), b.header.hashPointer))
      ensures agg == Agg(k, hotStuff.Abs())
    {
      hide BlockHash, Cast, IsBallot, Agg;
      hotStuff.SetHash(BlockHash(c, b));
      var _ := hotStuff.AddVote(OwnVote(k.me, view, BlockHash(c, b), b.header.hashPointer));
      agg := Quorum();
    }

    /** commit_and_execution_j_2: the block that is executed and the outputs of executing it. */
    method CommitAndExecute(inp: Input) returns (opTxs: seq<Txs>)
      modifies this`history
      ensures opTxs == ExecutionOutputs(old(Abs()), inp)
      ensures history == old(history).(executed := ExecutedAfter(old(Abs())))
    {
      hide FetchBlock, Window;
      var j2 := Fetch(2);
      if j2.None? { return []; }
      history := history.(executed := history.executed + [j2.value]);
      opTxs := inp.opTxs;
    }

    /** doPropose up to the block: what is executed, the new view, and the block made from the view that ended. */
    method NextBlock(inp: Input) returns (b: Block)
      requires Valid() && ProposeIsDefined(|shards|, Abs())
      modifies this`view, this`agg, this`finished, this`j1Finished, this`j1Txs, this`j2Txs, this`history, this`hotStuff
      ensures var l := old(Abs());
              && b == UrdLeader.NextBlock(c, shards, l, inp)
              && Abs() == l.(view := l.view + 1, agg := None, finished := map[], j1Finished := l.finished, j1Txs := ExecutionOutputs(l, inp),
                             j2Txs := l.j1Txs, history := l.history.(executed := ExecutedAfter(l)))
      ensures fresh(hotStuff) && fresh(hotStuff.votes) && hotStuff.w == k.w && hotStuff.view == view && hotStuff.Valid() && hotStuff.Abs() == NewBallot(view, [])
    {
      hide UrdLeader.MakeBlock, MakeBlockIsDefined, StoreIsKeyed, ExecutionOutputs, ExecutedAfter, HeightData.Valid, HeightData.Abs;
      var opTxs := CommitAndExecute(inp);
      EnterNextView();
      b := MakeBlock(opTxs, inp);
    }

    /** doPropose: the block is voted for and appended. */
    method DoPropose(inp: Input)
      requires Ready() && ProposeIsDefined(|shards|, Abs())
      modifies this`view, this`agg, this`finished, this`j1Finished, this`j1Txs, this`j2Txs, this`pool, this`history, this`hotStuff
      ensures Ready() && fresh(hotStuff) && fresh(hotStuff.votes)
      ensures Votes() == WithStep(UrdVoting.DoPropose(c, shards, k, old(Abs()), inp), step)
    {
      hide UrdLeader.MakeBlock, MakeBlockIsDefined, AppendBlock, Window, StoreIsKeyed, ExecutionOutputs, ExecutedAfter, BlockHash, Cast, Agg,
        HeightData.Valid, HeightData.Abs, HashOf;
      ghost var l := Abs();
      var b := NextBlock(inp);
      ProposedPointsBack(c, shards, l, inp);
      VoteForOwn(b);
      Append(b);
      history := history.(chain := history.chain + [b], outputs := history.outputs + [ExecutionOutputs(l, inp)],
                          inputs := history.inputs + [inp.(ownQuorum := agg)]);
      assert hotStuff.Abs() == OwnBallot(c, shards, k, l, inp);
      QuorumIsNotInBlock(c, shards, l, inp, agg);
    }

    method CrossShardCommunicate()
      requires Valid() && CommunicateIsDefined(|shards|, Abs())
      modifies this`finished, this`lastHash, this`outbox, this`history
      ensures Valid() && Abs() == UrdLeader.Communicate(c, |shards|, old(Abs())).(step := step)
      ensures outbox == old(outbox) + Packets(c, |shards|, old(Abs()))
    {
      hide UrdLeader.Redo, MakeMessage, MessageIsDefined, UrdLeader.ExtendHash, StoreIsKeyed, Packets;
      ghost var l := Abs();
      Redo();
      SameMessages(c, l, Abs(), |shards|);
      ghost var redone := Abs();
      for t := 0 to |shards|
        invariant Valid() && view == l.view && step == l.step && store == l.store && pool == l.pool && j2Txs == l.j2Txs && agg == l.agg
        invariant history == l.history && j1Txs == l.j1Txs && j1Finished == l.j1Finished
        invariant Abs() == if t > id then UrdLeader.ExtendHash(redone, MakeMessage(c, l, id)) else redone
        invariant outbox == old(outbox) + SentBefore(c, |shards|, l, t)
      {
        var m := BuildMessage(l, t);
        if t == id {
          ExtendHash(m);
        } else {
          outbox := outbox + {Packet(t, m)};
        }
      }
      history := history.(votes := history.votes + [agg.value]);
      SentBeforeAll(c, |shards|, l);
    }

    /** The message for shard t; it reads nothing that the other messages change. */
    method BuildMessage(ghost l: Leader, t: nat) returns (m: CrossShardMessage)
      requires l.id == id && l.agg == agg && l.pool == pool && l.j2Txs == j2Txs && agg.Some? && MessageIsDefined(l, t)
      ensures m == MakeMessage(c, l, t)
    {
      hide IntentionProofOf, OutputProofOf;
      m := CrossShardMessage(id, agg.value, [], None, [], None);
      if |pool| >= 4 {
        var b := Fetch(2);
        m := m.(intentionBrief := b.value.ci.value.intentionHash, proofOfIntention := Some(IntentionProofOf(c, b.value)),
                opTxs := j2Txs[t], outputTxsProof := Some(OutputProofOf(c, b.value, t)));
      }
    }

    method NextStep() returns (s: Step)
      ensures s == if agg.Some? then LeaderWait else LeaderVote
    {
      s := if agg.Some? then LeaderWait else LeaderVote;
    }

    /** handle_state_transition calls itself until nothing is left to do. */
    method HandleStateTransition(inp: Input)
      requires Ready() && DriveIsDefined(c, |shards|, Abs())
      modifies this
      ensures Ready() && (hotStuff == old(hotStuff) || (fresh(hotStuff) && fresh(hotStuff.votes)))
      ensures Drove(c, shards, k, old(Votes()), old(outbox), Votes(), outbox, inp)
      decreases if step == LeaderVote && agg.Some? then 2 else if step == LeaderWait && IsComplete(Abs()) then 1 else 0
    {
      hide Drove, UrdLeader.Communicate, UrdVoting.DoPropose, ProposeIsDefined, CommunicateIsDefined, Packets, StoreIsKeyed, HeightData.Valid,
        HeightData.Abs;
      ghost var (v, sent) := (Votes(), outbox);
      match step {
        case LeaderWait =>
          if |finished| != |lastHash| {
            NothingDriven(c, shards, k, v, sent, inp);
            return;
          }
          ProposingDrives(c, shards, k, v, inp);
          DoPropose(inp);
        case LeaderVote =>
          if agg.None? {
            NothingDriven(c, shards, k, v, sent, inp);
            return;
          }
          CommunicatingDrives(c, shards, k, v, inp);
          CrossShardCommunicate();
      }
      step := NextStep();
      ghost var (v', sent') := (Votes(), outbox);
      HandleStateTransition(inp);
      DroveOn(c, shards, k, v, sent, v', sent', Votes(), outbox, inp);
    }

    /** Start at view 0 as the proposer. */
    method Start(inp: Input)
      requires Ready() && Abs() == Fresh(|shards|, id)
      modifies this
      ensures Ready() && Votes() == Begin(c, shards, k, id, inp) && outbox == old(outbox)
      ensures fresh(hotStuff) && fresh(hotStuff.votes)
    {
      hide UrdVoting.DoPropose, HeightData.Valid, HeightData.Abs, StoreIsKeyed;
      DoPropose(inp);
      step := LeaderVote;
    }

    /** doMessage for a vote with a right signature: it is counted, and the leader moves once there is a quorum. */
    method ReceiveVote(vote: Vote, inp: Input) returns (counted: bool)
      requires Ready() && Handle(c, shards, k, Votes(), Voted(vote), inp).Some?
      modifies this, hotStuff, hotStuff.votes
      ensures Ready() && counted == Counts(k.w, old(hotStuff.Abs()), vote)
      ensures Handled(c, shards, k, old(Votes()), old(outbox), Voted(vote), Votes(), outbox, inp)
    {
      hide DriveIsDefined, HeightData.Valid, HeightData.Abs, StoreIsKeyed, Cast, Agg, Transit;
      ghost var v := Votes();
      if vote.index >= |k.w| { return false; }
      counted := hotStuff.AddVote(vote);
      if !counted {
        RefusedVote(k.w, v.ballot, vote);
        return;
      }
      if step == LeaderVote {
        agg := Quorum();
      }
      TransitIsDefined(c, shards, k, Votes(), inp);
      HandleStateTransition(inp);
    }

    /** Receive and doMessage for a CrossShardMessage. */
    method DoMessage(m: CrossShardMessage, inp: Input) returns (ok: bool)
      requires Ready() && Handle(c, shards, k, Votes(), Told(m), inp).Some?
      modifies this
      ensures Ready() && (ok <==> ProofsHold(c, m) && m.source < |shards| && (m.source, LastHash(m.aggVote)) !in old(store))
      ensures Handled(c, shards, k, old(Votes()), old(outbox), Told(m), Votes(), outbox, inp)
    {
      hide ValidMessage, ProofsHold, DriveIsDefined, HeightData.Valid, HeightData.Abs, Transit;
      ValidMeansProofsHold(c, m);
      if !ValidMessage(c, m) { return false; }
      if m.source >= |shards| { return false; }
      var key := (m.source, LastHash(m.aggVote));
      if key in store { return false; }
      ghost var l := Abs();
      store := store[key := m];
      if m.source !in finished && m.source in lastHash && lastHash[m.source] == LastHash(m.aggVote) {
        ExtendHash(m);
      }
      assert Abs() == Accept(l, m);
      TransitIsDefined(c, shards, k, Votes(), inp);
      HandleStateTransition(inp);
      ok := true;
    }
  }

  // ----- the object follows the functions -----

  function WithStep(v: Voting, step: Step): Voting {
    v.(l := v.l.(step := step))
  }

  lemma ProposedPointsBack(c: Crypto, names: seq<Bytes>, l: Leader, inp: Input)
    requires l.id < |names| && ProposeIsDefined(|names|, l)
    ensures UrdLeader.NextBlock(c, names, l, inp).header.hashPointer == HashOf(c, FetchBlock(l.pool, 1))
  {
    hide BlockHash, HeldVotes, HeldCores, HeldTxs, HeldTxsProofs;
  }

  /** From v with the packets sent so far, the handler has gone to v' and sent these: one transition, which is one step of
      the runs. */
  ghost predicate Drove(c: Crypto, names: seq<Bytes>, k: Committee, v: Voting, sent: set<Packet>, v': Voting, sent': set<Packet>, inp: Input) {
    && v.l.id < |names| && DriveIsDefined(c, |names|, v.l)
    && Transit(c, names, k, v, inp).Some? && v' == Transit(c, names, k, v, inp).value.0 && sent' == sent + Transit(c, names, k, v, inp).value.1
    && v'.l == Drive(c, names, v.l, OwnInput(c, names, k, v.l, inp))
  }

  ghost predicate Handled(c: Crypto, names: seq<Bytes>, k: Committee, v: Voting, sent: set<Packet>, a: Arrival, v': Voting, sent': set<Packet>, inp: Input) {
    var r := Handle(c, names, k, v, a, inp);
    r.Some? && v' == r.value.0 && sent' == sent + r.value.1
  }

  lemma TransitIsDefined(c: Crypto, names: seq<Bytes>, k: Committee, v: Voting, inp: Input)
    requires Transit(c, names, k, v, inp).Some?
    ensures DriveIsDefined(c, |names|, v.l) && v.l.id < |names|
  {
  }

  lemma RefusedVote(w: seq<nat>, b: Ballot, v: Vote)
    requires !Counts(w, b, v)
    ensures Cast(w, b, v) == b
  {
  }

  // ----- the keys of stored messages -----

  const COLON: Byte := 0x3a

  /** The string under which a message is stored; the model keeps the pair instead. */
  function StoreKey(name: Bytes, hash: Bytes): Bytes {
    name + [COLON] + hash
  }

  lemma KeyPrefix(a: Bytes, b: Bytes, x: Bytes, y: Bytes)
    requires |a| < |b| && StoreKey(a, x) == StoreKey(b, y)
    ensures StoreKey(a, []) <= b
  {
    var k := StoreKey(a, x);
    assert k[..|a| + 1] == a + [COLON] == StoreKey(a, []);
    assert k[..|b|] == StoreKey(b, y)[..|b|] == b;
  }

  lemma KeyMeets(a: Bytes, b: Bytes) returns (x: Bytes, y: Bytes)
    requires StoreKey(a, []) <= b
    ensures StoreKey(a, x) == StoreKey(b, y) && |x| == |b| - |a| && y == []
  {
    x, y := b[|a| + 1..] + [COLON], [];
    assert b == StoreKey(a, []) + b[|a| + 1..];
  }

  /** Two shard names can share a key exactly when one, with a colon, begins the other. */
  lemma KeysMeet(a: Bytes, b: Bytes)
    requires a != b
    ensures (exists x, y :: StoreKey(a, x) == StoreKey(b, y)) <==> StoreKey(a, []) <= b || StoreKey(b, []) <= a
  {
    hide StoreKey;
    if x, y :| StoreKey(a, x) == StoreKey(b, y) {
      if |a| < |b| {
        KeyPrefix(a, b, x, y);
      } else if |b| < |a| {
        KeyPrefix(b, a, y, x);
      } else {
        KeyParts(a, x, b, y);
      }
    }
    if StoreKey(a, []) <= b {
      var x, y := KeyMeets(a, b);
    }
    if StoreKey(b, []) <= a {
      var y, x := KeyMeets(b, a);
    }
  }

  /** The hash of a block, or none. */
  predicate IsHash(x: Bytes) {
    x == [] || |x| == HASH_SIZE
  }

  /** With hashes of blocks, one name must also be 32 bytes longer than the other; otherwise the pair of name and
      hash, by which the model keeps the messages, is as good as the key. */
  lemma HashKeysMeet(a: Bytes, b: Bytes)
    requires a != b
    ensures (exists x, y :: IsHash(x) && IsHash(y) && StoreKey(a, x) == StoreKey(b, y)) <==>
            (StoreKey(a, []) <= b && |b| == |a| + HASH_SIZE) || (StoreKey(b, []) <= a && |a| == |b| + HASH_SIZE)
  {
    if x, y :| IsHash(x) && IsHash(y) && StoreKey(a, x) == StoreKey(b, y) {
      assert |StoreKey(a, x)| == |a| + 1 + |x| && |StoreKey(b, y)| == |b| + 1 + |y|;
      if |a| < |b| {
        KeyPrefix(a, b, x, y);
      } else if |b| < |a| {
        KeyPrefix(b, a, y, x);
      } else {
        KeyParts(a, x, b, y);
      }
    }
    if StoreKey(a, []) <= b && |b| == |a| + HASH_SIZE {
      var x, y := KeyMeets(a, b);
      assert IsHash(x) && IsHash(y);
    }
    if StoreKey(b, []) <= a && |a| == |b| + HASH_SIZE {
      var y, x := KeyMeets(b, a);
      assert IsHash(x) && IsHash(y);
    }
  }

  lemma KeyParts(a: Bytes, x: Bytes, b: Bytes, y: Bytes)
    requires |a| == |b| && StoreKey(a, x) == StoreKey(b, y)
    ensures a == b && x == y
  {
    assert StoreKey(a, x)[..|a|] == a && StoreKey(b, y)[..|b|] == b;
    assert StoreKey(a, x)[|a| + 1..] == x && StoreKey(b, y)[|b| + 1..] == y;
  }

  // ----- the result of a commit certificate -----

  function Opinion(core: CertificateCore, i: nat): Bytes {
    if i < |core.intentionBrief| then core.intentionBrief[i] else []
  }

  lemma {:induction false} FirstIntentionOfPrefix(cc: seq<CertificateCore>, core: CertificateCore, i: nat)
    ensures FirstIntention(cc + [core], i) ==
            if FirstIntention(cc, i) != [] then FirstIntention(cc, i) else Opinion(core, i)
  {
    if cc == [] {
      assert cc + [core] == [core];
    } else {
      assert (cc + [core])[1..] == cc[1..] + [core];
      FirstIntentionOfPrefix(cc[1..], core, i);
    }
  }

  lemma {:induction false} NoFirstNoOpinion(cc: seq<CertificateCore>, i: nat)
    requires FirstIntention(cc, i) == []
    ensures forall j :: 0 <= j < |cc| ==> Opinion(cc[j], i) == []
  {
    if cc != [] { NoFirstNoOpinion(cc[1..], i); }
  }

  lemma DisputedOfPrefix(cc: seq<CertificateCore>, core: CertificateCore, i: nat)
    ensures Disputed(cc + [core], i) <==>
            Disputed(cc, i) || (FirstIntention(cc, i) != [] && Opinion(core, i) != [] && Opinion(core, i) != FirstIntention(cc, i))
  {
    hide FirstIntention;
    FirstIntentionOfPrefix(cc, core, i);
    var (all, f) := (cc + [core], FirstIntention(cc, i));
    if f == [] {
      NoFirstNoOpinion(cc, i);
      assert forall j :: 0 <= j < |cc| ==> all[j] == cc[j] && Opinion(cc[j], i) == [];
    } else {
      if Disputed(cc, i) {
        var j :| 0 <= j < |cc| && i < |cc[j].intentionBrief| && cc[j].intentionBrief[i] != [] && cc[j].intentionBrief[i] != f;
        assert all[j] == cc[j];
      }
      if Opinion(core, i) != [] && Opinion(core, i) != f {
        assert all[|cc|] == core;
      }
    }
  }

  /** The result for shard i is the opinion of the first core that has one, and is disputed exactly when two cores have
      different opinions. */
  lemma {:induction false} ResultIsFirstOpinion(cc: seq<CertificateCore>, i: nat)
    ensures forall j :: 0 <= j < |cc| && Opinion(cc[j], i) != [] && (forall k :: 0 <= k < j ==> Opinion(cc[k], i) == []) ==>
              FirstIntention(cc, i) == Opinion(cc[j], i)
    ensures FirstIntention(cc, i) == [] <==> forall j :: 0 <= j < |cc| ==> Opinion(cc[j], i) == []
    decreases |cc|
  {
    if cc != [] {
      ResultIsFirstOpinion(cc[1..], i);
      assert forall j :: 0 < j < |cc| ==> cc[j] == cc[1..][j - 1];
      assert forall j :: 0 <= j < |cc| - 1 ==> cc[1..][j] == cc[j + 1];
    }
  }

  /** The first of several opinions is that of some core. */
  lemma {:induction false} FirstIsOpinion(cc: seq<CertificateCore>, i: nat) returns (j: nat)
    requires FirstIntention(cc, i) != []
    ensures j < |cc| && Opinion(cc[j], i) == FirstIntention(cc, i)
    decreases |cc|
  {
    if i < |cc[0].intentionBrief| && cc[0].intentionBrief[i] != [] {
      j := 0;
    } else {
      var k := FirstIsOpinion(cc[1..], i);
      j := k + 1;
    }
  }

  predicate Differ(cc: seq<CertificateCore>, i: nat, j: nat, k: nat)
    requires j < |cc| && k < |cc|
  {
    Opinion(cc[j], i) != [] && Opinion(cc[k], i) != [] && Opinion(cc[j], i) != Opinion(cc[k], i)
  }

  lemma DisputedIff(cc: seq<CertificateCore>, i: nat)
    ensures Disputed(cc, i) <==> exists j, k :: 0 <= j < |cc| && 0 <= k < |cc| && Differ(cc, i, j, k)
  {
    hide FirstIntention;
    if Disputed(cc, i) {
      var j :| 0 <= j < |cc| && i < |cc[j].intentionBrief| && cc[j].intentionBrief[i] != [] && cc[j].intentionBrief[i] != FirstIntention(cc, i);
      if FirstIntention(cc, i) == [] { NoFirstNoOpinion(cc, i); }
      var k := FirstIsOpinion(cc, i);
      assert Differ(cc, i, j, k);
    }
  }

  /** CommitCertificate.Result: for each shard the first opinion, and whether a later one differs. */
  method Result(cc: seq<CertificateCore>) returns (results: array<Bytes>, errors: array<bool>)
    requires BriefsFit(cc)
    ensures results.Length == errors.Length == |cc|
    ensures forall i :: 0 <= i < |cc| ==> results[i] == FirstIntention(cc, i) && (errors[i] <==> Disputed(cc, i))
  {
    hide FirstIntention, Disputed;
    results, errors := new Bytes[|cc|](_ => []), new bool[|cc|](_ => false);
    EmptyCertificate();
    for j := 0 to |cc|
      modifies results, errors
      invariant forall i :: 0 <= i < |cc| ==> results[i] == FirstIntention(cc[..j], i) && (errors[i] <==> Disputed(cc[..j], i))
    {
      var brief := cc[j].intentionBrief;
      assert cc[..j + 1] == cc[..j] + [cc[j]];
      for k := 0 to |brief|
        modifies results, errors
        invariant forall i :: 0 <= i < k ==> results[i] == FirstIntention(cc[..j + 1], i) && (errors[i] <==> Disputed(cc[..j + 1], i))
        invariant forall i :: k <= i < |cc| ==> results[i] == FirstIntention(cc[..j], i) && (errors[i] <==> Disputed(cc[..j], i))
      {
        FirstIntentionOfPrefix(cc[..j], cc[j], k);
        DisputedOfPrefix(cc[..j], cc[j], k);
        if results[k] == brief[k] || |brief[k]| == 0 {
        } else if |results[k]| > 0 {
          errors[k] := true;
        } else {
          results[k] := brief[k];
        }
      }
      forall i | |brief| <= i < |cc|
        ensures FirstIntention(cc[..j + 1], i) == FirstIntention(cc[..j], i) && (Disputed(cc[..j + 1], i) <==> Disputed(cc[..j], i))
      {
        FirstIntentionOfPrefix(cc[..j], cc[j], i);
        DisputedOfPrefix(cc[..j], cc[j], i);
      }
    }
    assert cc[..|cc|] == cc;
  }

  lemma EmptyCertificate()
    ensures forall i: nat :: FirstIntention([], i) == [] && !Disputed([], i)
  {
  }

  // ----- helpers -----

  function SentBefore(c: Crypto, n: nat, l: Leader, k: nat): set<Packet>
    requires k <= n && l.agg.Some? && forall t :: 0 <= t < n ==> MessageIsDefined(l, t)
  {
    if k == 0 then {}
    else SentBefore(c, n, l, k - 1) + if k - 1 == l.id then {} else {Packet(k - 1, MakeMessage(c, l, k - 1))}
  }

  lemma {:induction false} SentBeforeIs(c: Crypto, n: nat, l: Leader, k: nat)
    requires k <= n && CommunicateIsDefined(n, l)
    ensures forall p :: p in SentBefore(c, n, l, k) <==> p.dest < k && p.dest != l.id && p.msg == MakeMessage(c, l, p.dest)
  {
    hide MakeMessage, MessageIsDefined;
    if k > 0 { SentBeforeIs(c, n, l, k - 1); }
  }

  lemma SentBeforeAll(c: Crypto, n: nat, l: Leader)
    requires CommunicateIsDefined(n, l)
    ensures SentBefore(c, n, l, n) == Packets(c, n, l)
  {
    hide MakeMessage, MessageIsDefined;
    SentBeforeIs(c, n, l, n);
  }

  lemma SameMessages(c: Crypto, l: Leader, l': Leader, n: nat)
    requires l' == UrdLeader.Redo(l)
    ensures l' == l.(finished := l'.finished, lastHash := l'.lastHash)
  {
  }

  lemma NothingDriven(c: Crypto, names: seq<Bytes>, k: Committee, v: Voting, sent: set<Packet>, inp: Input)
    requires v.l.id < |names| && if v.l.step == LeaderVote then v.l.agg.None? else !IsComplete(v.l)
    ensures Drove(c, names, k, v, sent, v, sent, inp)
  {
    hide IsComplete, OwnBallot;
    TransitIsDrive(c, names, k, v, inp);
  }

  /** A complete leader proposes, and the next call finds nothing to do. */
  lemma ProposingDrives(c: Crypto, names: seq<Bytes>, k: Committee, v: Voting, inp: Input)
    requires v.l.id < |names| && v.l.id in v.l.lastHash && v.l.step == LeaderWait && IsComplete(v.l) && DriveIsDefined(c, |names|, v.l)
    ensures ProposeIsDefined(|names|, v.l)
    ensures var v1 := UrdVoting.DoPropose(c, names, k, v.l, inp);
            && v1.l.step == (if v1.l.agg.Some? then LeaderWait else LeaderVote) && !IsComplete(v1.l) && v1.l.store == v.l.store
            && v1.l.id == v.l.id && v1.l.lastHash == v.l.lastHash && DriveIsDefined(c, |names|, v1.l)
  {
    hide MakeBlock, OwnBallot, Agg;
    var v1 := UrdVoting.DoPropose(c, names, k, v.l, inp);
    assert v1.l.finished == map[] && |v.l.lastHash| == |v.l.lastHash.Keys| && |v.l.lastHash.Keys - {v.l.id}| < |v.l.lastHash.Keys|;
  }

  /** A leader with a quorum sends its message; the next call does the rest. */
  lemma CommunicatingDrives(c: Crypto, names: seq<Bytes>, k: Committee, v: Voting, inp: Input)
    requires v.l.id < |names| && v.l.step == LeaderVote && v.l.agg.Some? && DriveIsDefined(c, |names|, v.l)
    ensures CommunicateIsDefined(|names|, v.l)
    ensures var l1 := UrdLeader.Communicate(c, |names|, v.l);
            l1.step == LeaderWait && l1.agg == v.l.agg && l1.store == v.l.store && l1.id == v.l.id && DriveIsDefined(c, |names|, l1)
  {
    hide MakeMessage, IsComplete, ProposeIsDefined, MessageIsDefined, IsStored, Stored;
  }

  /** One call and then the rest are together one transition. */
  lemma DroveOn(c: Crypto, names: seq<Bytes>, k: Committee, v: Voting, sent: set<Packet>, v1: Voting, sent1: set<Packet>,
                v2: Voting, sent2: set<Packet>, inp: Input)
    requires v.l.id < |names| && DriveIsDefined(c, |names|, v.l) && Drove(c, names, k, v1, sent1, v2, sent2, inp)
    requires
      || (v.l.step == LeaderVote && v.l.agg.Some? && v1 == v.(l := UrdLeader.Communicate(c, |names|, v.l)) && sent1 == sent + Packets(c, |names|, v.l))
      || (v.l.step == LeaderWait && IsComplete(v.l) && v1 == UrdVoting.DoPropose(c, names, k, v.l, inp) && sent1 == sent && !IsComplete(v1.l) &&
          v1.l.step == (if v1.l.agg.Some? then LeaderWait else LeaderVote))
    ensures Drove(c, names, k, v, sent, v2, sent2, inp)
  {
    hide UrdLeader.Communicate, CommunicateIsDefined, ProposeIsDefined, IsComplete, OwnBallot, Packets, Propose;
    TransitIsDrive(c, names, k, v, inp);
    if v.l.step == LeaderVote {
      CommunicatingDrives(c, names, k, v, inp);
      assert sent + Packets(c, |names|, v.l) + {} == sent + Packets(c, |names|, v.l);
    }
  }

  /** A message is stored under the shard it came from. */
  ghost predicate StoreIsKeyed(store: map<(nat, Bytes), CrossShardMessage>) {
    forall key :: key in store ==> store[key].source == key.0
  }

  function Found(l: Leader, done: set<nat>): (r: map<nat, CrossShardMessage>)
    ensures forall t :: t in r <==> t in l.lastHash && t in done && IsStored(l, t)
    ensures forall t :: t in r ==> r[t] == Stored(l, t)
  {
    map t | t in l.lastHash && t in done && IsStored(l, t) :: Stored(l, t)
  }

  function Extended(l: Leader, done: set<nat>): (r: map<nat, Bytes>)
    ensures r.Keys == l.lastHash.Keys
    ensures forall t :: t in r ==> r[t] == if t in done && IsStored(l, t) then Stored(l, t).aggVote.forHash else l.lastHash[t]
  {
    map t | t in l.lastHash :: if t in done && IsStored(l, t) then Stored(l, t).aggVote.forHash else l.lastHash[t]
  }

  /** The state when the shards in done have been looked up. */
  function RedoOf(l: Leader, done: set<nat>): Leader {
    l.(finished := l.finished + Found(l, done), lastHash := Extended(l, done))
  }

  lemma RedoOfNone(l: Leader)
    ensures RedoOf(l, {}) == l
  {
    hide Found, Extended;
    assert l.finished + Found(l, {}) == l.finished;
    assert Extended(l, {}) == l.lastHash;
  }

  lemma RedoOfAll(l: Leader)
    ensures RedoOf(l, l.lastHash.Keys) == UrdLeader.Redo(l)
  {
    hide Found, Extended, IsStored, Stored;
    assert Found(l, l.lastHash.Keys) == map t | t in l.lastHash && IsStored(l, t) :: Stored(l, t);
    assert Extended(l, l.lastHash.Keys) == UrdLeader.Redo(l).lastHash;
  }

  lemma FoundOne(l: Leader, done: set<nat>, t: nat)
    requires t in l.lastHash && t !in done
    ensures l.finished + Found(l, done + {t}) ==
            if IsStored(l, t) then (l.finished + Found(l, done))[t := Stored(l, t)] else l.finished + Found(l, done)
  {
    hide Found, IsStored, Stored;
  }

  lemma ExtendedOne(l: Leader, done: set<nat>, t: nat)
    requires t in l.lastHash && t !in done
    ensures Extended(l, done)[t] == l.lastHash[t]
    ensures Extended(l, done + {t}) ==
            if IsStored(l, t) then Extended(l, done)[t := Stored(l, t).aggVote.forHash] else Extended(l, done)
  {
    hide Extended, IsStored, Stored;
  }

  lemma RedoOfOne(l: Leader, done: set<nat>, t: nat)
    requires t in l.lastHash && t !in done && StoreIsKeyed(l.store)
    ensures var r := RedoOf(l, done);
            && r.lastHash.Keys == RedoOf(l, done + {t}).lastHash.Keys == l.lastHash.Keys && r.lastHash[t] == l.lastHash[t] && r.store == l.store
            && RedoOf(l, done + {t}) == if IsStored(l, t) then UrdLeader.ExtendHash(r, Stored(l, t)) else r
  {
    hide Found, Extended;
    FoundOne(l, done, t);
    ExtendedOne(l, done, t);
  }
}
