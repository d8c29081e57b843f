/** What becomes of a leader whose own vote is a quorum (urd/consensus/state_transition.go). */
module UrdStuck {
  import opened Bytes
  import opened Merkle
  import opened UrdTypes
  import opened UrdHistory
  import opened UrdPipeline
  import opened UrdLeader
  import opened UrdVotes
  import opened UrdVoting
  import Lockstep = UrdLockstep

  // ----- a heavy leader gets stuck -----

  /** The leader waits for a message of its own that it never sends. */
  predicate Stuck(l: Leader) {
    l.step == LeaderWait && l.id in l.lastHash && l.id !in l.finished && l.finished.Keys <= l.lastHash.Keys
  }

  lemma StuckIsIncomplete(l: Leader)
    requires Stuck(l)
    ensures !IsComplete(l)
  {
    assert |l.finished| == |l.finished.Keys| && |l.lastHash| == |l.lastHash.Keys|;
    if |l.finished| == |l.lastHash| {
      Lockstep.SubsetOfSameSize(l.finished.Keys, l.lastHash.Keys);
    }
  }

  /** A proposal leaves the leader stuck exactly when it weighs two thirds of its shard. */
  lemma ProposalGetsStuckIff(c: Crypto, names: seq<Bytes>, k: Committee, l: Leader, inp: Input)
    requires l.id < |names| && ProposeIsDefined(|names|, l) && l.id in l.lastHash && k.me < |k.w|
    ensures Stuck(DoPropose(c, names, k, l, inp).l) <==> IsHeavy(k)
    ensures DoPropose(c, names, k, l, inp).l.agg.Some? <==> IsHeavy(k)
    ensures DoPropose(c, names, k, l, inp).l.step == if IsHeavy(k) then LeaderWait else LeaderVote
  {
    hide MakeBlock, BlockHash, HashOf, ExecutionOutputs;
    var hash := BlockHash(c, MakeBlock(c, names, l.id, l.view + 1, l.pool, l.finished, ExecutionOutputs(l, inp), inp));
    OwnVoteIsQuorumIff(k.w, k.me, l.view + 1, hash, HashOf(c, FetchBlock(l.pool, 1)));
  }

  lemma AcceptKeepsStuck(l: Leader, m: CrossShardMessage)
    requires Stuck(l) && m.source != l.id
    ensures Stuck(Accept(l, m)) && Accept(l, m).id == l.id && Accept(l, m).history == l.history && Accept(l, m).view == l.view
  {
  }

  lemma StuckStays(c: Crypto, names: seq<Bytes>, k: Committee, v: Voting, inp: Input)
    requires Stuck(v.l) && v.l.id < |names|
    ensures Transit(c, names, k, v, inp) == Some((v, {}))
  {
    hide IsComplete, Propose, OwnBallot;
    StuckIsIncomplete(v.l);
  }

  lemma HandleKeepsStuck(c: Crypto, names: seq<Bytes>, k: Committee, v: Voting, a: Arrival, inp: Input)
    requires Stuck(v.l) && v.l.id < |names| && IsFromOther(v.l.id, a)
    ensures var r := Handle(c, names, k, v, a, inp);
            r.Some? && r.value.1 == {} && Stuck(r.value.0.l) && r.value.0.l.id == v.l.id && r.value.0.l.history == v.l.history && r.value.0.l.view == v.l.view
  {
    hide Transit, Accept, Refused, Stuck, Counts, Cast, Agg;
    match a {
      case Voted(vote) =>
        assert v.l.step == LeaderWait by { StuckWaits(v.l); }
        StuckStays(c, names, k, Voting(v.l, Cast(k.w, v.ballot, vote)), inp);
      case Told(msg) =>
        AcceptKeepsStuck(v.l, msg);
        StuckStays(c, names, k, v.(l := Accept(v.l, msg)), inp);
    }
  }

  lemma StuckWaits(l: Leader)
    requires Stuck(l)
    ensures l.step == LeaderWait
  {
  }

  /** Whatever arrives afterwards, votes or messages of other shards, the leader stays stuck, sends nothing, and
      neither its view nor its chain, votes and executed blocks change. */
  lemma {:induction false} StuckForever(c: Crypto, names: seq<Bytes>, k: Committee, v: Voting, steps: seq<(Arrival, Input)>)
    requires Stuck(v.l) && v.l.id < |names| && FromOthers(v.l.id, steps)
    ensures var r := HandleAll(c, names, k, v, steps);
            && r.Some? && r.value.1 == {}
            && Stuck(r.value.0.l) && r.value.0.l.id == v.l.id && r.value.0.l.view == v.l.view && r.value.0.l.history == v.l.history
  {
    hide Handle, Stuck, IsFromOther;
    if steps != [] {
      var m := |steps| - 1;
      StuckForever(c, names, k, v, steps[..m]);
      var before := HandleAll(c, names, k, v, steps[..m]).value.0;
      HandleKeepsStuck(c, names, k, before, steps[m].0, steps[m].1);
    }
  }

  // ----- from the start -----

  /** What holds of a leader after any arrivals: it is stuck exactly when it is heavy and past view 1, and a heavy
      one has sent at most the message of view 1. */
  ghost predicate InStep(k: Committee, l: Leader)
    requires k.me < |k.w|
  {
    && l.view >= 1 && l.id in l.lastHash && l.finished.Keys <= l.lastHash.Keys
    && (Stuck(l) <==> IsHeavy(k) && l.view >= 2)
    && (IsHeavy(k) ==> l.view <= 2 && |l.pool| == l.view && |l.history.votes| == if l.view == 1 && l.step == LeaderVote then 0 else 1)
  }

  lemma BeginIsInStep(c: Crypto, names: seq<Bytes>, k: Committee, id: nat, inp: Input)
    requires id < |names| && k.me < |k.w|
    ensures InStep(k, Begin(c, names, k, id, inp).l) && Begin(c, names, k, id, inp).l.id == id
  {
    hide OwnBallot, Agg, MakeBlock, IsHeavy;
  }

  lemma AcceptKeepsInStep(k: Committee, l: Leader, m: CrossShardMessage)
    requires k.me < |k.w| && InStep(k, l) && m.source != l.id
    ensures InStep(k, Accept(l, m)) && Accept(l, m).id == l.id
  {
    hide IsHeavy;
  }

  lemma CommunicateKeepsInStep(c: Crypto, n: nat, k: Committee, l: Leader)
    requires k.me < |k.w| && InStep(k, l) && l.step == LeaderVote && l.agg.Some? && CommunicateIsDefined(n, l)
    ensures InStep(k, Communicate(c, n, l)) && Communicate(c, n, l).id == l.id
  {
    hide IsHeavy, MakeMessage, IsStored, Stored;
    var l' := Communicate(c, n, l);
    assert MakeMessage(c, l, l.id).source == l.id by { OwnSource(c, l, l.id); }
    assert l'.lastHash.Keys == l.lastHash.Keys + {l.id};
    assert l'.finished.Keys <= l.finished.Keys + l.lastHash.Keys + {l.id};
  }

  lemma OwnSource(c: Crypto, l: Leader, index: nat)
    requires l.agg.Some? && MessageIsDefined(l, index)
    ensures MakeMessage(c, l, index).source == l.id
  {
  }

  lemma ProposeKeepsInStep(c: Crypto, names: seq<Bytes>, k: Committee, l: Leader, inp: Input)
    requires k.me < |k.w| && InStep(k, l) && l.step == LeaderWait && IsComplete(l) && l.id < |names| && ProposeIsDefined(|names|, l)
    ensures InStep(k, DoPropose(c, names, k, l, inp).l) && DoPropose(c, names, k, l, inp).l.id == l.id
  {
    hide IsHeavy, MakeBlock, OwnBallot, Agg, IsComplete, Stuck;
    ProposalGetsStuckIff(c, names, k, l, inp);
    if Stuck(l) { StuckIsIncomplete(l); }
  }

  /** A heavy leader looks up nothing that is not there. */
  lemma HeavyIsDefined(c: Crypto, n: nat, k: Committee, l: Leader)
    requires k.me < |k.w| && InStep(k, l) && IsHeavy(k) && l.id < n
    ensures DriveIsDefined(c, n, l)
  {
    hide IsHeavy, Communicate, IsComplete, Stuck;
    if Stuck(l) {
      StuckIsIncomplete(l);
      StuckWaits(l);
    } else if l.step == LeaderVote && l.agg.Some? {
      CommunicateIsInView1(c, n, l);
    } else if l.step == LeaderWait {
      WaitsWithOwn(l);
    }
  }

  lemma CommunicateIsInView1(c: Crypto, n: nat, l: Leader)
    requires l.step == LeaderVote && l.agg.Some? && l.id < n && |l.pool| == 1
    ensures CommunicateIsDefined(n, l) && ProposeIsDefined(n, Communicate(c, n, l))
  {
    hide IsStored, Stored, MakeMessage;
    OwnSource(c, l, l.id);
  }

  lemma WaitsWithOwn(l: Leader)
    requires !Stuck(l) && l.step == LeaderWait && l.id in l.lastHash && l.finished.Keys <= l.lastHash.Keys
    ensures l.id in l.finished
  {
  }

  lemma TransitKeepsInStep(c: Crypto, names: seq<Bytes>, k: Committee, v: Voting, inp: Input)
    requires k.me < |k.w| && InStep(k, v.l)
    ensures var r := Transit(c, names, k, v, inp);
            && (IsHeavy(k) && v.l.id < |names| ==> r.Some?)
            && (r.Some? ==> InStep(k, r.value.0.l) && r.value.0.l.id == v.l.id)
  {
    if IsHeavy(k) && v.l.id < |names| { HeavyIsDefined(c, |names|, k, v.l); }
    hide IsHeavy, InStep, DoPropose, IsComplete, Communicate, CommunicateIsDefined, ProposeIsDefined;
    if v.l.id < |names| && DriveIsDefined(c, |names|, v.l) {
      var l := v.l;
      if v.l.step == LeaderVote && v.l.agg.Some? {
        CommunicateKeepsInStep(c, |names|, k, v.l);
        CommunicateWaits(c, |names|, v.l);
        l := Communicate(c, |names|, v.l);
      }
      if l.step == LeaderWait && IsComplete(l) {
        ProposeKeepsInStep(c, names, k, l, inp);
      }
    }
  }

  lemma HandleKeepsInStep(c: Crypto, names: seq<Bytes>, k: Committee, v: Voting, a: Arrival, inp: Input)
    requires k.me < |k.w| && InStep(k, v.l) && IsFromOther(v.l.id, a)
    ensures var r := Handle(c, names, k, v, a, inp);
            && (IsHeavy(k) && v.l.id < |names| ==> r.Some?)
            && (r.Some? ==> InStep(k, r.value.0.l) && r.value.0.l.id == v.l.id)
  {
    hide Transit, Accept, Refused, Counts, Cast, Agg, InStep, IsHeavy;
    match a {
      case Voted(vote) =>
        var b := Cast(k.w, v.ballot, vote);
        AggKeepsInStep(k, v.l, Agg(k, b));
        TransitKeepsInStep(c, names, k, Voting(if v.l.step == LeaderVote then v.l.(agg := Agg(k, b)) else v.l, b), inp);
      case Told(msg) =>
        AcceptKeepsInStep(k, v.l, msg);
        TransitKeepsInStep(c, names, k, v.(l := Accept(v.l, msg)), inp);
    }
  }

  lemma AggKeepsInStep(k: Committee, l: Leader, agg: Option<AggVote>)
    requires k.me < |k.w| && InStep(k, l)
    ensures InStep(k, l.(agg := agg))
  {
    hide IsHeavy;
  }

  lemma {:induction false} AllKeepInStep(c: Crypto, names: seq<Bytes>, k: Committee, v: Voting, steps: seq<(Arrival, Input)>)
    requires k.me < |k.w| && InStep(k, v.l) && FromOthers(v.l.id, steps)
    ensures var r := HandleAll(c, names, k, v, steps);
            && (IsHeavy(k) && v.l.id < |names| ==> r.Some?)
            && (r.Some? ==> InStep(k, r.value.0.l) && r.value.0.l.id == v.l.id)
  {
    hide Handle, InStep, IsFromOther, IsHeavy;
    if steps != [] {
      var m := |steps| - 1;
      AllKeepInStep(c, names, k, v, steps[..m]);
      if HandleAll(c, names, k, v, steps[..m]).Some? {
        var before := HandleAll(c, names, k, v, steps[..m]).value.0;
        HandleKeepsInStep(c, names, k, before, steps[m].0, steps[m].1);
      }
    }
  }

  /** Whatever arrives, a leader that has found all it looked up is stuck exactly when it weighs two thirds of its shard
      and has left view 1. A heavy leader always finds all, never passes view 2, and sends only its message of view 1. */
  lemma LeaderGetsStuckIff(c: Crypto, names: seq<Bytes>, k: Committee, id: nat, inp: Input, steps: seq<(Arrival, Input)>)
    requires id < |names| && k.me < |k.w| && FromOthers(id, steps)
    ensures var r := HandleAll(c, names, k, Begin(c, names, k, id, inp), steps);
            && (r.Some? ==> (Stuck(r.value.0.l) <==> IsHeavy(k) && r.value.0.l.view >= 2))
            && (IsHeavy(k) ==> r.Some? && r.value.0.l.view <= 2 && |r.value.0.l.history.votes| <= 1)
  {
    hide Begin, IsHeavy, Stuck;
    BeginIsInStep(c, names, k, id, inp);
    AllKeepInStep(c, names, k, Begin(c, names, k, id, inp), steps);
  }

  /** View 1 is different: Start leaves even a heavy leader waiting for votes, with a quorum, so whatever it takes
      next makes it send its message to every other shard. */
  lemma FirstMessageGoesOut(c: Crypto, names: seq<Bytes>, k: Committee, id: nat, inp: Input, a: Arrival, next: Input)
    requires id < |names| && k.me < |k.w| && IsHeavy(k) && IsFromOther(id, a)
    requires var v := Begin(c, names, k, id, inp);
             if a.Voted? then Counts(k.w, v.ballot, a.vote) else !Refused(c, |names|, v.l, a.msg)
    ensures var (v, r) := (Begin(c, names, k, id, inp), Handle(c, names, k, Begin(c, names, k, id, inp), a, next));
            && !Stuck(v.l) && v.l.view == 1 && v.l.step == LeaderVote && v.l.agg.Some?
            && r.Some? && Destinations(r.value.1) == Ids(|names|) - {id}
  {
    hide Begin, Transit, Refused, Counts, Agg, IsHeavy, Stuck, Accept, InStep;
    var v := Begin(c, names, k, id, inp);
    BeginHasQuorum(c, names, k, id, inp);
    BeginIsInStep(c, names, k, id, inp);
    HandleKeepsInStep(c, names, k, v, a, next);
    match a {
      case Voted(vote) =>
        var b := Cast(k.w, v.ballot, vote);
        OwnBallotStays(c, names, k, id, inp, vote);
        TransitSends(c, names, k, Voting(v.l.(agg := Agg(k, b)), b), next);
      case Told(msg) =>
        AcceptKeepsAgg(v.l, msg);
        TransitSends(c, names, k, v.(l := Accept(v.l, msg)), next);
    }
  }

  lemma AcceptKeepsAgg(l: Leader, m: CrossShardMessage)
    ensures var l' := Accept(l, m); l'.agg == l.agg && l'.step == l.step && l'.id == l.id
  {
  }

  lemma BeginHasQuorum(c: Crypto, names: seq<Bytes>, k: Committee, id: nat, inp: Input)
    requires id < |names| && k.me < |k.w| && IsHeavy(k)
    ensures var v := Begin(c, names, k, id, inp);
            !Stuck(v.l) && v.l.view == 1 && v.l.step == LeaderVote && v.l.agg.Some? && v.l.id == id && IsQuorum(k.w, v.ballot)
  {
    hide MakeBlock, OwnBallot, IsHeavy, IsQuorum, Needed;
    ProposalGetsStuckIff(c, names, k, Fresh(|names|, id), inp);
  }

  lemma OwnBallotStays(c: Crypto, names: seq<Bytes>, k: Committee, id: nat, inp: Input, vote: Vote)
    requires id < |names| && k.me < |k.w| && IsHeavy(k)
    ensures Agg(k, Cast(k.w, Begin(c, names, k, id, inp).ballot, vote)).Some?
  {
    hide Begin, IsHeavy, Stuck, Needed;
    BeginHasQuorum(c, names, k, id, inp);
  }

  lemma TransitSends(c: Crypto, names: seq<Bytes>, k: Committee, v: Voting, inp: Input)
    requires v.l.step == LeaderVote && v.l.agg.Some?
    ensures var r := Transit(c, names, k, v, inp);
            r.Some? ==> Destinations(r.value.1) == Ids(|names|) - {v.l.id}
  {
    hide DoPropose, Communicate, MakeMessage, MessageIsDefined, ProposeIsDefined, IsComplete, Packets;
    if v.l.id < |names| && DriveIsDefined(c, |names|, v.l) {
      PacketsGoToAll(c, |names|, v.l);
    }
  }

  lemma PacketsGoToAll(c: Crypto, n: nat, l: Leader)
    requires CommunicateIsDefined(n, l)
    ensures Destinations(Packets(c, n, l)) == Ids(n) - {l.id}
  {
    hide MakeMessage, MessageIsDefined;
    forall t | t in Ids(n) - {l.id} ensures t in Destinations(Packets(c, n, l)) {
      assert Packet(t, MakeMessage(c, l, t)) in Packets(c, n, l);
    }
  }

  // ----- a heavy leader does leave view 1 -----

  /** The first message of another shard: it continues no block, and has no proofs yet. */
  predicate IsFirst(n: nat, id: nat, m: CrossShardMessage) {
    m.source < n && m.source != id && LastHash(m.aggVote) == [] && m.proofOfIntention.None? && m.outputTxsProof.None?
  }

  function Sources(msgs: seq<CrossShardMessage>): set<nat> {
    set i | 0 <= i < |msgs| :: msgs[i].source
  }

  /** One first message of every other shard, in any order. */
  predicate AreFirst(n: nat, id: nat, msgs: seq<CrossShardMessage>) {
    && (forall i :: 0 <= i < |msgs| ==> IsFirst(n, id, msgs[i]))
    && (forall i, j :: 0 <= i < j < |msgs| ==> msgs[i].source != msgs[j].source)
    && Sources(msgs) == Ids(n) - {id}
  }

  function AsArrivals(msgs: seq<CrossShardMessage>, inp: Input): (steps: seq<(Arrival, Input)>)
    ensures |steps| == |msgs| && forall i :: 0 <= i < |msgs| ==> steps[i] == (Told(msgs[i]), inp)
  {
    seq(|msgs|, i requires 0 <= i < |msgs| => (Told(msgs[i]), inp))
  }

  /** Nothing was heard of the shards that are not in done. */
  predicate UnheardAreNew(lastHash: map<nat, Bytes>, done: set<nat>, id: nat) {
    forall t :: t in lastHash && t !in done && t != id ==> lastHash[t] == []
  }

  predicate StoredFrom(store: map<(nat, Bytes), CrossShardMessage>, done: set<nat>) {
    forall key :: key in store ==> key.0 in done
  }

  /** The shards of which a message is held: those in done, and the leader's own once it has sent it. */
  function HeldOf(done: set<nat>, id: nat): set<nat> {
    if done == {} then {} else done + {id}
  }

  /** The leader in view 1 after the messages of the shards in done, if any. */
  predicate HasHeard(n: nat, id: nat, l: Leader, done: set<nat>) {
    && l.id == id < n && l.view == 1 && |l.pool| == 1 && l.agg.Some?
    && l.lastHash.Keys == Ids(n)
    && l.step == (if done == {} then LeaderVote else LeaderWait)
    && done <= Ids(n) && l.finished.Keys == HeldOf(done, id)
    && UnheardAreNew(l.lastHash, done, id) && StoredFrom(l.store, done)
  }

  lemma BeginHasHeard(c: Crypto, names: seq<Bytes>, k: Committee, id: nat, inp: Input)
    requires id < |names| && k.me < |k.w| && IsHeavy(k)
    ensures HasHeard(|names|, id, Begin(c, names, k, id, inp).l, {})
  {
    hide IsHeavy, OwnBallot, MakeBlock, Agg;
    BeginHasQuorum(c, names, k, id, inp);
  }

  /** A message without proofs passes every check on messages. */
  lemma UnprovenIsValid(c: Crypto, m: CrossShardMessage)
    requires m.proofOfIntention.None? && m.outputTxsProof.None?
    ensures ValidMessage(c, m)
  {
  }

  lemma FirstIsAccepted(c: Crypto, n: nat, id: nat, l: Leader, done: set<nat>, m: CrossShardMessage)
    requires HasHeard(n, id, l, done) && IsFirst(n, id, m) && m.source !in done
    ensures !Refused(c, n, l, m) && m.source in l.lastHash && m.source !in l.finished && l.lastHash[m.source] == []
  {
    hide ValidMessage, LastHash;
    UnprovenIsValid(c, m);
    assert m.source in Ids(n);
  }

  lemma FirstIsUsed(l: Leader, m: CrossShardMessage)
    requires m.source in l.lastHash && m.source !in l.finished && l.lastHash[m.source] == LastHash(m.aggVote)
    ensures Accept(l, m) == l.(store := l.store[(m.source, LastHash(m.aggVote)) := m], finished := l.finished[m.source := m],
                               lastHash := l.lastHash[m.source := m.aggVote.forHash])
  {
    hide LastHash;
  }

  /** What the leader then has, before it sends anything. */
  predicate HasTaken(n: nat, id: nat, l: Leader, done: set<nat>, t: nat) {
    && l.id == id < n && l.view == 1 && |l.pool| == 1 && l.agg.Some?
    && l.lastHash.Keys == Ids(n)
    && l.step == (if done == {} then LeaderVote else LeaderWait)
    && done + {t} <= Ids(n) && l.finished.Keys == HeldOf(done, id) + {t}
    && UnheardAreNew(l.lastHash, done + {t}, id) && StoredFrom(l.store, done + {t})
  }

  lemma TakeFirst(n: nat, id: nat, l: Leader, done: set<nat>, m: CrossShardMessage)
    requires HasHeard(n, id, l, done) && IsFirst(n, id, m) && m.source in l.lastHash && m.source !in l.finished && l.lastHash[m.source] == []
    ensures HasTaken(n, id, Accept(l, m), done, m.source)
  {
    hide Accept, LastHash, Ids, UnheardAreNew, StoredFrom, HeldOf;
    FirstIsUsed(l, m);
    var t := m.source;
    UpdatedKeys(l.lastHash, t, m.aggVote.forHash);
    UpdatedKeys(l.finished, t, m);
    assert l.lastHash.Keys + {t} == l.lastHash.Keys;
    HearOne(l.lastHash, done, id, t, m.aggVote.forHash);
    StoreOne(l.store, done, t, LastHash(m.aggVote), m);
  }

  lemma HearOne(lastHash: map<nat, Bytes>, done: set<nat>, id: nat, t: nat, hash: Bytes)
    requires UnheardAreNew(lastHash, done, id)
    ensures UnheardAreNew(lastHash[t := hash], done + {t}, id)
  {
  }

  lemma StoreOne(store: map<(nat, Bytes), CrossShardMessage>, done: set<nat>, t: nat, hash: Bytes, m: CrossShardMessage)
    requires StoredFrom(store, done)
    ensures StoredFrom(store[(t, hash) := m], done + {t})
  {
  }

  lemma UpdatedKeys<T>(m: map<nat, T>, t: nat, x: T)
    ensures m[t := x].Keys == m.Keys + {t}
  {
  }

  /** Sending its message, the leader replays only what it has already used. */
  lemma CommunicateAfterFirst(c: Crypto, n: nat, l: Leader, t: nat)
    requires l.id < n && l.step == LeaderVote && l.agg.Some? && |l.pool| == 1 && t != l.id
    requires l.lastHash.Keys == Ids(n) && l.finished.Keys == {t} && t < n
    requires UnheardAreNew(l.lastHash, {t}, l.id) && StoredFrom(l.store, {t})
    ensures CommunicateIsDefined(n, l)
    ensures var l' := Communicate(c, n, l);
            && l'.step == LeaderWait && l'.lastHash.Keys == Ids(n) && l'.finished.Keys == {t} + {l.id}
            && l' == l.(step := LeaderWait, finished := l'.finished, lastHash := l'.lastHash, history := l'.history)
            && UnheardAreNew(l'.lastHash, {t}, l.id)
  {
    hide MakeMessage, Redo, UnheardAreNew, Ids;
    OwnSource(c, l, l.id);
    RedoAfterFirst(l, t);
    var (m, r) := (MakeMessage(c, l, l.id), Redo(l));
    UpdatedKeys(r.lastHash, l.id, m.aggVote.forHash);
    UpdatedKeys(r.finished, l.id, m);
    assert r.lastHash.Keys + {l.id} == r.lastHash.Keys;
    OwnOne(r.lastHash, t, l.id, m.aggVote.forHash);
  }

  lemma OwnOne(lastHash: map<nat, Bytes>, t: nat, id: nat, hash: Bytes)
    requires UnheardAreNew(lastHash, {t}, id)
    ensures UnheardAreNew(lastHash[id := hash], {t}, id)
  {
  }

  lemma RedoAfterFirst(l: Leader, t: nat)
    requires l.finished.Keys == {t} && UnheardAreNew(l.lastHash, {t}, l.id) && StoredFrom(l.store, {t})
    ensures var r := Redo(l);
            && r.finished.Keys == {t} && r.lastHash.Keys == l.lastHash.Keys && UnheardAreNew(r.lastHash, {t}, l.id)
            && r == l.(finished := r.finished, lastHash := r.lastHash)
  {
    hide Stored;
    var r := Redo(l);
    assert forall x :: x in l.lastHash && x != t ==> !IsStored(l, x);
    assert r.finished.Keys == {t};
  }

  lemma SmallerIsIncomplete(l: Leader, s: nat)
    requires l.finished.Keys <= l.lastHash.Keys && s in l.lastHash && s !in l.finished
    ensures !IsComplete(l)
  {
    assert |l.finished| == |l.finished.Keys| && |l.lastHash| == |l.lastHash.Keys|;
    if |l.finished| == |l.lastHash| {
      Lockstep.SubsetOfSameSize(l.finished.Keys, l.lastHash.Keys);
    }
  }

  lemma EqualIsComplete(l: Leader)
    requires l.finished.Keys == l.lastHash.Keys
    ensures IsComplete(l)
  {
    assert |l.finished| == |l.finished.Keys| && |l.lastHash| == |l.lastHash.Keys|;
  }

  /** The leader once it has taken the message and, if it is the first, sent its own. */
  function Heard(c: Crypto, n: nat, l: Leader, m: CrossShardMessage): Leader
    requires DriveIsDefined(c, n, Accept(l, m))
  {
    Communicated(c, n, Accept(l, m))
  }

  lemma HeardOneMore(c: Crypto, n: nat, k: Committee, id: nat, l: Leader, done: set<nat>, m: CrossShardMessage)
    requires HasHeard(n, id, l, done) && IsFirst(n, id, m) && m.source !in done
    requires k.me < |k.w| && IsHeavy(k) && InStep(k, l)
    ensures !Refused(c, n, l, m) && DriveIsDefined(c, n, Accept(l, m))
    ensures HasHeard(n, id, Heard(c, n, l, m), done + {m.source})
  {
    hide IsHeavy, InStep, DriveIsDefined, Communicate, Refused, Accept, HasHeard, HasTaken;
    FirstIsAccepted(c, n, id, l, done, m);
    TakeFirst(n, id, l, done, m);
    assert l.id == id < n by { IdOfHeard(n, id, l, done); }
    AcceptKeepsInStep(k, l, m);
    assert Accept(l, m).id == id < n;
    HeavyIsDefined(c, n, k, Accept(l, m));
    TakenIsHeard(c, n, id, Accept(l, m), done, m.source);
  }

  lemma IdOfHeard(n: nat, id: nat, l: Leader, done: set<nat>)
    requires HasHeard(n, id, l, done)
    ensures l.id == id < n && l.finished.Keys <= done + {id} && l.lastHash.Keys == Ids(n) && (done != {} ==> l.step == LeaderWait && l.finished.Keys == done + {id})
    ensures l.view == 1
  {
    hide Ids;
  }

  lemma TakenIsHeard(c: Crypto, n: nat, id: nat, l: Leader, done: set<nat>, t: nat)
    requires HasTaken(n, id, l, done, t) && t < n && t != id && DriveIsDefined(c, n, l)
    ensures HasHeard(n, id, Communicated(c, n, l), done + {t})
  {
    hide Communicate, DriveIsDefined, UnheardAreNew, StoredFrom, Ids;
    assert t in done + {t};
    if done == {} {
      assert done + {t} == {t} && HeldOf(done, id) + {t} == {t};
      CommunicateAfterFirst(c, n, l, t);
    } else {
      assert HeldOf(done, id) + {t} == HeldOf(done + {t}, id);
    }
  }

  /** One message: the last one completes the view, and the leader proposes block 2. */
  lemma HandleFirst(c: Crypto, names: seq<Bytes>, k: Committee, id: nat, v: Voting, done: set<nat>, m: CrossShardMessage, inp: Input)
    requires HasHeard(|names|, id, v.l, done) && IsFirst(|names|, id, m) && m.source !in done
    requires k.me < |k.w| && IsHeavy(k) && InStep(k, v.l)
    ensures var (r, done') := (Handle(c, names, k, v, Told(m), inp), done + {m.source});
            && r.Some? && InStep(k, r.value.0.l)
            && if done' + {id} == Ids(|names|) then r.value.0.l.view == 2 else HasHeard(|names|, id, r.value.0.l, done')
  {
    hide IsHeavy, InStep, IsComplete, Handle, Heard, Refused, Accept, DriveIsDefined, DoPropose, HasHeard, ProposeIsDefined, Ids;
    var (n, done') := (|names|, done + {m.source});
    IdOfHeard(n, id, v.l, done);
    HeardOneMore(c, n, k, id, v.l, done, m);
    HandleKeepsInStep(c, names, k, v, Told(m), inp);
    var l := Heard(c, n, v.l, m);
    HandleIsHeard(c, names, k, v, m, inp);
    assert m.source in done';
    IdOfHeard(n, id, l, done');
    if done' + {id} == Ids(n) {
      EqualIsComplete(l);
      HeardIsProposed(c, n, v.l, m);
      ProposesNextView(c, names, k, l, inp);
    } else {
      assert done' + {id} <= Ids(n) by { HeardAreShards(n, id, l, done'); }
      var s := LeftOver(done' + {id}, Ids(n));
      SmallerIsIncomplete(l, s);
    }
  }

  lemma HeardAreShards(n: nat, id: nat, l: Leader, done: set<nat>)
    requires HasHeard(n, id, l, done) && done != {}
    ensures done + {id} <= Ids(n) && l.finished.Keys <= l.lastHash.Keys
  {
  }

  /** Handling an accepted message: the message is taken, the leader sends if it can, and proposes if that completes the view. */
  lemma HandleIsHeard(c: Crypto, names: seq<Bytes>, k: Committee, v: Voting, m: CrossShardMessage, inp: Input)
    requires v.l.id < |names| && !Refused(c, |names|, v.l, m) && DriveIsDefined(c, |names|, Accept(v.l, m))
    ensures var (r, l) := (Handle(c, names, k, v, Told(m), inp), Heard(c, |names|, v.l, m));
            && r.Some?
            && (!(l.step == LeaderWait && IsComplete(l)) ==> r.value.0.l == l)
            && (l.step == LeaderWait && IsComplete(l) ==>
                  l.id < |names| && ProposeIsDefined(|names|, l) && r.value.0.l == DoPropose(c, names, k, l, inp).l)
  {
    hide Refused, DoPropose, IsComplete, CommunicateIsDefined, ProposeIsDefined, Communicate, Sent, Accept;
    assert Accept(v.l, m).id == v.l.id by { AcceptKeepsAgg(v.l, m); }
    var l := Accept(v.l, m);
    if l.step == LeaderVote && l.agg.Some? { CommunicateWaits(c, |names|, l); }
  }

  lemma HeardIsProposed(c: Crypto, n: nat, l: Leader, m: CrossShardMessage)
    requires DriveIsDefined(c, n, Accept(l, m)) && IsComplete(Heard(c, n, l, m)) && Heard(c, n, l, m).step == LeaderWait
    ensures ProposeIsDefined(n, Heard(c, n, l, m))
  {
    hide ProposeIsDefined, IsComplete, Accept, Communicate, CommunicateIsDefined;
  }

  lemma LeftOver(a: set<nat>, b: set<nat>) returns (s: nat)
    requires a <= b && a != b
    ensures s in b && s !in a
  {
    s :| s in b && s !in a;
  }

  lemma ProposesNextView(c: Crypto, names: seq<Bytes>, k: Committee, l: Leader, inp: Input)
    requires l.id < |names| && ProposeIsDefined(|names|, l)
    ensures DoPropose(c, names, k, l, inp).l.view == l.view + 1
  {
    hide OwnBallot, MakeBlock, Agg;
  }

  lemma SourcesOneMore(msgs: seq<CrossShardMessage>, i: nat)
    requires i < |msgs|
    ensures Sources(msgs[..i + 1]) == Sources(msgs[..i]) + {msgs[i].source}
  {
    var (xs, ys) := (msgs[..i], msgs[..i + 1]);
    forall t | t in Sources(xs) + {msgs[i].source} ensures t in Sources(ys) {
      if t in Sources(xs) {
        var j :| 0 <= j < |xs| && xs[j].source == t;
        assert ys[j].source == t;
      } else {
        assert ys[i].source == t;
      }
    }
    forall t | t in Sources(ys) ensures t in Sources(xs) + {msgs[i].source} {
      var j :| 0 <= j < |ys| && ys[j].source == t;
      if j < i { assert xs[j].source == t; }
    }
  }

  lemma NotYetHeard(n: nat, id: nat, msgs: seq<CrossShardMessage>, i: nat)
    requires AreFirst(n, id, msgs) && i < |msgs|
    ensures msgs[i].source !in Sources(msgs[..i])
    ensures IsFirst(n, id, msgs[i]) && (i + 1 < |msgs| ==> Sources(msgs[..i + 1]) + {id} != Ids(n))
  {
    if i + 1 < |msgs| {
      assert IsFirst(n, id, msgs[i + 1]);
      assert msgs[i + 1].source !in Sources(msgs[..i + 1]);
    }
  }

  lemma {:induction false} HearAll(c: Crypto, names: seq<Bytes>, k: Committee, id: nat, v: Voting, msgs: seq<CrossShardMessage>, inp: Input, i: nat)
    requires AreFirst(|names|, id, msgs) && i < |msgs| && id < |names|
    requires k.me < |k.w| && IsHeavy(k) && InStep(k, v.l) && HasHeard(|names|, id, v.l, {})
    ensures var r := HandleAll(c, names, k, v, AsArrivals(msgs, inp)[..i + 1]);
            && r.Some? && InStep(k, r.value.0.l)
            && if i + 1 == |msgs| then r.value.0.l.view == 2 else HasHeard(|names|, id, r.value.0.l, Sources(msgs[..i + 1]))
  {
    hide IsHeavy, InStep, Handle, HasHeard, AreFirst, IsFirst, Sources;
    var steps := AsArrivals(msgs, inp);
    assert steps[..i + 1][..i] == steps[..i];
    NotYetHeard(|names|, id, msgs, i);
    SourcesOneMore(msgs, i);
    if i > 0 {
      HearAll(c, names, k, id, v, msgs, inp, i - 1);
    } else {
      assert Sources(msgs[..0]) == {} by { NoSources(msgs); }
      assert HandleAll(c, names, k, v, steps[..0]) == Some((v, {}));
    }
    var before := HandleAll(c, names, k, v, steps[..i]).value.0;
    HandleFirst(c, names, k, id, before, Sources(msgs[..i]), msgs[i], inp);
    if i + 1 == |msgs| {
      assert Sources(msgs[..i + 1]) + {id} == Ids(|names|) by { AllHeard(|names|, id, msgs); }
    }
  }

  lemma NoSources(msgs: seq<CrossShardMessage>)
    ensures Sources(msgs[..0]) == {}
  {
  }

  lemma AllHeard(n: nat, id: nat, msgs: seq<CrossShardMessage>)
    requires AreFirst(n, id, msgs) && id in Ids(n)
    ensures Sources(msgs[..|msgs|]) + {id} == Ids(n)
  {
    assert msgs[..|msgs|] == msgs;
  }

  /** With two or more shards, the first messages of the others, in any order, take a heavy leader from Start to view 2,
      and there it is stuck. */
  lemma HeavyLeaderGetsStuck(c: Crypto, names: seq<Bytes>, k: Committee, id: nat, inp: Input, msgs: seq<CrossShardMessage>, next: Input)
    requires id < |names| && |names| >= 2 && k.me < |k.w| && IsHeavy(k) && AreFirst(|names|, id, msgs)
    ensures var r := HandleAll(c, names, k, Begin(c, names, k, id, inp), AsArrivals(msgs, next));
            r.Some? && r.value.0.l.view == 2 && Stuck(r.value.0.l)
  {
    hide Begin, IsHeavy, Stuck, HasHeard, AreFirst, Handle, HandleAll;
    BeginHasHeard(c, names, k, id, inp);
    BeginIsInStep(c, names, k, id, inp);
    assert msgs != [] by { SomeOther(|names|, id, msgs); }
    HearAll(c, names, k, id, Begin(c, names, k, id, inp), msgs, next, |msgs| - 1);
    assert AsArrivals(msgs, next)[..|msgs|] == AsArrivals(msgs, next);
  }

  lemma SomeOther(n: nat, id: nat, msgs: seq<CrossShardMessage>)
    requires AreFirst(n, id, msgs) && n >= 2
    ensures msgs != []
  {
    var t := if id == 0 then 1 else 0;
    assert t in Sources(msgs);
  }
}
