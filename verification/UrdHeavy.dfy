/** Runs of all leaders with their votes counted, where some leader is a quorum by itself: no shard passes view 2. */
module UrdHeavy {
  import opened Bytes
  import opened Merkle
  import opened UrdTypes
  import opened UrdHistory
  import opened UrdPipeline
  import opened UrdLeader
  import opened UrdVotes
  import opened UrdVoting
  import opened UrdStuck
  import Lockstep = UrdLockstep

  datatype Shards = Shards(all: seq<Voting>, net: set<Packet>)

  datatype Event = VoteArrives(i: nat, vote: Vote, inp: Input) | PacketArrives(i: nat, msg: CrossShardMessage, inp: Input)

  /** The number of shards, and a committee in each that its leader belongs to. */
  predicate AreCommittees(names: seq<Bytes>, ks: seq<Committee>) {
    |ks| == |names| && forall i :: 0 <= i < |ks| ==> ks[i].me < |ks[i].w|
  }

  /** A validator's vote names the block before the one it votes on; a packet has been sent. */
  predicate Enabled(c: Crypto, g: Shards, e: Event) {
    && e.i < |g.all|
    && match e
       case VoteArrives(i, vote, _) => vote.data == [HashOf(c, FetchBlock(g.all[i].l.pool, 2))]
       case PacketArrives(i, msg, _) => Packet(i, msg) in g.net
  }

  function ArrivalOf(e: Event): Arrival {
    match e
    case VoteArrives(_, vote, _) => Voted(vote)
    case PacketArrives(_, msg, _) => Told(msg)
  }

  /** None if the leader's handler panics. */
  function Apply(c: Crypto, names: seq<Bytes>, ks: seq<Committee>, g: Shards, e: Event): Option<Shards>
    requires Enabled(c, g, e) && |ks| == |g.all|
  {
    match Handle(c, names, ks[e.i], g.all[e.i], ArrivalOf(e), e.inp)
    case None => None
    case Some(r) => Some(Shards(g.all[e.i := r.0], g.net + r.1))
  }

  function Init(c: Crypto, names: seq<Bytes>, ks: seq<Committee>, inputs: seq<Input>): Shards
    requires AreCommittees(names, ks) && |inputs| == |names|
  {
    Shards(seq(|names|, i requires 0 <= i < |names| => Begin(c, names, ks[i], i, inputs[i])), {})
  }

  /** Every event was possible when it happened, and no handler had panicked before. */
  predicate IsRun(c: Crypto, names: seq<Bytes>, ks: seq<Committee>, inputs: seq<Input>, es: seq<Event>)
    requires AreCommittees(names, ks) && |inputs| == |names|
    decreases |es|, 0
  {
    es == [] ||
    (IsRun(c, names, ks, inputs, Front(es)) &&
     After(c, names, ks, inputs, Front(es)).Some? && Enabled(c, After(c, names, ks, inputs, Front(es)).value, Last(es)))
  }

  function After(c: Crypto, names: seq<Bytes>, ks: seq<Committee>, inputs: seq<Input>, es: seq<Event>): (r: Option<Shards>)
    requires AreCommittees(names, ks) && |inputs| == |names| && IsRun(c, names, ks, inputs, es)
    ensures r.Some? ==> |r.value.all| == |names|
    decreases |es|, 1
  {
    if es == [] then Some(Init(c, names, ks, inputs))
    else Apply(c, names, ks, After(c, names, ks, inputs, Front(es)).value, Last(es))
  }

  // ----- the heavy leader -----

  /** The vote of a first message: on a block, and continuing none. */
  predicate IsFirstVote(v: AggVote) {
    LastHash(v) == [] && |v.forHash| == HASH_SIZE
  }

  /** In view 1 every vote on its block names no block before it. */
  ghost predicate VotesAreFirst(k: Committee, b: Ballot) {
    IsBallot(k.w, b) && |b.hash| == HASH_SIZE && b.votes != map[] && forall i :: i in b.votes ==> b.votes[i].data == [[]]
  }

  ghost predicate HeavyOk(k: Committee, v: Voting)
    requires k.me < |k.w|
  {
    && InStep(k, v.l)
    && (v.l.view == 1 ==> VotesAreFirst(k, v.ballot) && (v.l.agg.Some? ==> IsFirstVote(v.l.agg.value)))
  }

  lemma FirstAgg(k: Committee, b: Ballot)
    requires VotesAreFirst(k, b)
    ensures Agg(k, b).Some? ==> IsFirstVote(Agg(k, b).value)
  {
    hide IsBallot, LastHash;
    AggregatedCarries(k.w, b, [], k.combine(b.votes).0, k.combine(b.votes).1);
  }

  lemma CastKeepsFirst(k: Committee, b: Ballot, vote: Vote)
    requires VotesAreFirst(k, b) && vote.data == [[]]
    ensures VotesAreFirst(k, Cast(k.w, b, vote))
  {
    hide IsBallot, IsQuorum;
    CastKeepsBallot(k.w, b, vote);
    if Counts(k.w, b, vote) { assert vote.index in Cast(k.w, b, vote).votes; }
  }

  lemma BeginVotesAreFirst(c: Crypto, names: seq<Bytes>, k: Committee, id: nat, inp: Input)
    requires id < |names| && k.me < |k.w|
    ensures VotesAreFirst(k, Begin(c, names, k, id, inp).ballot)
    ensures Begin(c, names, k, id, inp).l.agg == Agg(k, Begin(c, names, k, id, inp).ballot)
  {
    hide MakeBlock, BlockHash, IsBallot, IsQuorum, Agg, Fresh;
    var (l, opTxs) := (Fresh(|names|, id), ExecutionOutputs(Fresh(|names|, id), inp));
    assert l.id == id && l.pool == [] && l.view == 0 && ProposeIsDefined(|names|, l) by { FreshIsEmpty(|names|, id); }
    var hash := BlockHash(c, MakeBlock(c, names, l.id, l.view + 1, l.pool, l.finished, opTxs, inp));
    var (b, own) := (NewBallot(1, hash), OwnVote(k.me, 1, hash, []));
    NewIsBallot(k.w, 1, hash);
    CastKeepsBallot(k.w, b, own);
    assert OwnBallot(c, names, k, l, inp) == Cast(k.w, b, own);
    assert k.me in Cast(k.w, b, own).votes;
  }

  lemma FreshIsEmpty(n: nat, id: nat)
    ensures var l := Fresh(n, id); l.id == id && l.pool == [] && l.view == 0 && ProposeIsDefined(n, l)
  {
  }

  lemma BeginIsHeavyOk(c: Crypto, names: seq<Bytes>, k: Committee, id: nat, inp: Input)
    requires id < |names| && k.me < |k.w|
    ensures HeavyOk(k, Begin(c, names, k, id, inp))
  {
    hide Begin, VotesAreFirst, Agg, InStep, IsFirstVote;
    BeginIsInStep(c, names, k, id, inp);
    BeginVotesAreFirst(c, names, k, id, inp);
    FirstAgg(k, Begin(c, names, k, id, inp).ballot);
  }

  /** Driving the handler changes neither votes nor quorum while the view is the same. */
  lemma TransitKeepsView(c: Crypto, names: seq<Bytes>, k: Committee, v: Voting, inp: Input)
    ensures var r := Transit(c, names, k, v, inp);
            r.Some? ==> r.value.0.l.view == v.l.view + 1 || (r.value.0.l.view == v.l.view && r.value.0.l.agg == v.l.agg && r.value.0.ballot == v.ballot)
  {
    hide MakeMessage, Redo, IsComplete, OwnBallot, MakeBlock, Agg, ProposeIsDefined, MessageIsDefined;
    if Transit(c, names, k, v, inp).Some? {
      var l := Communicated(c, |names|, v.l);
      assert l.view == v.l.view && l.agg == v.l.agg by { CommunicatedKeeps(c, |names|, v.l); }
    }
  }

  lemma CommunicatedKeeps(c: Crypto, n: nat, l: Leader)
    requires DriveIsDefined(c, n, l)
    ensures var l' := Communicated(c, n, l); l'.view == l.view && l'.agg == l.agg && l'.id == l.id && l'.pool == l.pool
  {
    hide MakeMessage, IsStored, Stored, IsComplete, ProposeIsDefined;
  }

  lemma HeavyHandles(c: Crypto, names: seq<Bytes>, k: Committee, v: Voting, a: Arrival, inp: Input)
    requires k.me < |k.w| && IsHeavy(k) && HeavyOk(k, v) && v.l.id < |names| && IsFromOther(v.l.id, a)
    requires a.Voted? ==> a.vote.data == [HashOf(c, FetchBlock(v.l.pool, 2))]
    ensures var r := Handle(c, names, k, v, a, inp);
            r.Some? && HeavyOk(k, r.value.0) && r.value.0.l.id == v.l.id
  {
    hide IsHeavy, InStep, Transit, Accept, Agg, VotesAreFirst, IsFirstVote, Cast, Refused, Counts;
    HandleKeepsInStep(c, names, k, v, a, inp);
    assert 1 <= v.l.view <= 2 && |v.l.pool| == v.l.view by { HeavyViews(k, v.l); }
    match a {
      case Voted(vote) =>
        var b := Cast(k.w, v.ballot, vote);
        var v' := Voting(if v.l.step == LeaderVote then v.l.(agg := Agg(k, b)) else v.l, b);
        if v.l.view == 1 {
          CastKeepsFirst(k, v.ballot, vote);
          FirstAgg(k, b);
        }
        TransitKeepsView(c, names, k, v', inp);
      case Told(msg) =>
        assert Accept(v.l, msg).view == v.l.view && Accept(v.l, msg).agg == v.l.agg by { AcceptKeepsView(v.l, msg); }
        TransitKeepsView(c, names, k, v.(l := Accept(v.l, msg)), inp);
    }
  }

  lemma HeavyViews(k: Committee, l: Leader)
    requires k.me < |k.w| && IsHeavy(k) && InStep(k, l)
    ensures 1 <= l.view <= 2 && |l.pool| == l.view
  {
    hide IsHeavy, Stuck;
  }

  lemma AcceptKeepsView(l: Leader, m: CrossShardMessage)
    ensures var l' := Accept(l, m); l'.view == l.view && l'.agg == l.agg && l'.step == l.step && l'.id == l.id && l'.pool == l.pool
  {
  }

  // ----- the other leaders -----

  /** What is stored of shard h continues no block. */
  predicate StoresFirst(h: nat, store: map<(nat, Bytes), CrossShardMessage>) {
    forall key :: key in store && key.0 == h ==> key.1 == [] && |store[key].aggVote.forHash| == HASH_SIZE
  }

  /** The message of shard h was used in view 1, and there is no other. */
  predicate LightOk(n: nat, h: nat, l: Leader) {
    && l.id < n && h < n && l.id != h && l.lastHash.Keys == Ids(n) && l.finished.Keys <= Ids(n)
    && 1 <= l.view <= 2 && |l.pool| == l.view
    && (l.view == 2 ==> h !in l.finished && |l.lastHash[h]| == HASH_SIZE)
    && (h in l.finished ==> |l.lastHash[h]| == HASH_SIZE)
    && StoresFirst(h, l.store)
  }

  lemma BeginIsLightOk(c: Crypto, names: seq<Bytes>, k: Committee, id: nat, inp: Input, h: nat)
    requires id < |names| && h < |names| && id != h
    ensures LightOk(|names|, h, Begin(c, names, k, id, inp).l)
  {
    hide OwnBallot, MakeBlock, Agg;
  }

  lemma AcceptKeepsLight(n: nat, h: nat, l: Leader, m: CrossShardMessage)
    requires LightOk(n, h, l) && m.source < n && (m.source == h ==> IsFirstVote(m.aggVote))
    ensures LightOk(n, h, Accept(l, m))
  {
    hide LastHash, Ids;
    var key := (m.source, LastHash(m.aggVote));
    assert StoresFirst(h, l.store[key := m]);
    UpdatedKeys(l.lastHash, m.source, m.aggVote.forHash);
    UpdatedKeys(l.finished, m.source, m);
    assert m.source in Ids(n) && h in Ids(n);
  }

  lemma RedoKeepsLight(n: nat, h: nat, l: Leader)
    requires LightOk(n, h, l)
    ensures LightOk(n, h, Redo(l))
    ensures var r := Redo(l); r == l.(finished := r.finished, lastHash := r.lastHash)
  {
    hide Ids;
    var r := Redo(l);
    assert h in Ids(n);
    assert r.lastHash.Keys == l.lastHash.Keys;
    assert r.finished.Keys <= Ids(n);
  }

  lemma CommunicateKeepsLight(c: Crypto, n: nat, h: nat, l: Leader)
    requires LightOk(n, h, l) && l.agg.Some?
    ensures CommunicateIsDefined(n, l)
    ensures LightOk(n, h, Communicate(c, n, l)) && Communicate(c, n, l).step == LeaderWait && Communicate(c, n, l).id == l.id
  {
    hide MakeMessage, Redo, Ids, StoresFirst;
    OwnSource(c, l, l.id);
    RedoKeepsLight(n, h, l);
    var (m, r) := (MakeMessage(c, l, l.id), Redo(l));
    UpdatedKeys(r.lastHash, l.id, m.aggVote.forHash);
    UpdatedKeys(r.finished, l.id, m);
    assert l.id in Ids(n);
  }

  lemma ProposeKeepsLight(c: Crypto, names: seq<Bytes>, k: Committee, h: nat, l: Leader, inp: Input)
    requires LightOk(|names|, h, l) && IsComplete(l)
    ensures ProposeIsDefined(|names|, l)
    ensures LightOk(|names|, h, DoPropose(c, names, k, l, inp).l) && DoPropose(c, names, k, l, inp).l.id == l.id
  {
    hide OwnBallot, MakeBlock, Agg, Ids, StoresFirst, IsComplete;
    assert l.finished.Keys == Ids(|names|) by { LightHasAll(|names|, h, l); }
    assert l.id in Ids(|names|) && h in Ids(|names|);
  }

  lemma LightHasAll(n: nat, h: nat, l: Leader)
    requires LightOk(n, h, l) && IsComplete(l)
    ensures l.finished.Keys == Ids(n)
  {
    hide Ids, StoresFirst;
    assert |l.finished| == |l.finished.Keys| && |l.lastHash| == |l.lastHash.Keys|;
    Lockstep.SubsetOfSameSize(l.finished.Keys, l.lastHash.Keys);
  }

  lemma LightTransits(c: Crypto, names: seq<Bytes>, k: Committee, h: nat, v: Voting, inp: Input)
    requires LightOk(|names|, h, v.l)
    ensures var r := Transit(c, names, k, v, inp);
            r.Some? && LightOk(|names|, h, r.value.0.l) && r.value.0.l.id == v.l.id
  {
    hide LightOk, IsComplete, ProposeIsDefined, CommunicateIsDefined, Communicate, DoPropose;
    assert v.l.id < |names| by { LightInRange(|names|, h, v.l); }
    var l := v.l;
    if v.l.step == LeaderVote && v.l.agg.Some? {
      CommunicateKeepsLight(c, |names|, h, v.l);
      l := Communicate(c, |names|, v.l);
    }
    if l.step == LeaderWait && IsComplete(l) {
      ProposeKeepsLight(c, names, k, h, l, inp);
    }
  }

  lemma LightInRange(n: nat, h: nat, l: Leader)
    requires LightOk(n, h, l)
    ensures l.id < n && l.view <= 2
  {
  }

  lemma LightHandles(c: Crypto, names: seq<Bytes>, k: Committee, h: nat, v: Voting, a: Arrival, inp: Input)
    requires LightOk(|names|, h, v.l) && (a.Told? && a.msg.source == h ==> IsFirstVote(a.msg.aggVote))
    ensures var r := Handle(c, names, k, v, a, inp);
            r.Some? && LightOk(|names|, h, r.value.0.l) && r.value.0.l.id == v.l.id
  {
    hide Transit, Accept, Agg, IsFirstVote, Cast, ValidMessage, Counts, LightOk;
    match a {
      case Voted(vote) =>
        var b := Cast(k.w, v.ballot, vote);
        var v' := Voting(if v.l.step == LeaderVote then v.l.(agg := Agg(k, b)) else v.l, b);
        AggKeepsLight(|names|, h, v.l, Agg(k, b));
        LightTransits(c, names, k, h, v', inp);
      case Told(msg) =>
        if !Refused(c, |names|, v.l, msg) {
          AcceptKeepsLight(|names|, h, v.l, msg);
          AcceptKeepsView(v.l, msg);
          LightTransits(c, names, k, h, v.(l := Accept(v.l, msg)), inp);
        }
    }
  }

  lemma AggKeepsLight(n: nat, h: nat, l: Leader, agg: Option<AggVote>)
    requires LightOk(n, h, l)
    ensures LightOk(n, h, l.(agg := agg))
  {
  }

  // ----- packets -----

  /** A packet is for another shard than its sender's, and what shard h sends continues no block. */
  predicate PacketOk(h: nat, p: Packet) {
    p.msg.source != p.dest && (p.msg.source == h ==> IsFirstVote(p.msg.aggVote))
  }

  /** A leader sends its own messages, with its quorum. */
  lemma SentAre(c: Crypto, names: seq<Bytes>, k: Committee, v: Voting, a: Arrival, inp: Input, p: Packet)
    requires Handle(c, names, k, v, a, inp).Some? && p in Handle(c, names, k, v, a, inp).value.1
    ensures p.msg.source == v.l.id != p.dest && v.l.step == LeaderVote
    ensures p.msg.aggVote == if a.Voted? then Agg(k, Cast(k.w, v.ballot, a.vote)).value else v.l.agg.value
    ensures if a.Voted? then Agg(k, Cast(k.w, v.ballot, a.vote)).Some? else v.l.agg.Some?
  {
    hide Agg, Cast, Refused, Counts, Accept, IsComplete, ProposeIsDefined, DoPropose, Communicate, MessageIsDefined, MakeMessage;
    match a {
      case Voted(vote) =>
        var b := Cast(k.w, v.ballot, vote);
        PacketsAre(c, |names|, if v.l.step == LeaderVote then v.l.(agg := Agg(k, b)) else v.l, p);
      case Told(msg) =>
        AcceptKeepsView(v.l, msg);
        PacketsAre(c, |names|, Accept(v.l, msg), p);
    }
  }

  lemma PacketsAre(c: Crypto, n: nat, l: Leader, p: Packet)
    requires CommunicateIsDefined(n, l) && p in Packets(c, n, l)
    ensures p.msg.source == l.id != p.dest && p.msg.aggVote == l.agg.value
  {
    hide IntentionProofOf, OutputProofOf;
  }

  // ----- all shards -----

  ghost predicate Inv(names: seq<Bytes>, ks: seq<Committee>, h: nat, g: Shards)
    requires AreCommittees(names, ks)
  {
    && h < |g.all| == |names|
    && (forall i :: 0 <= i < |g.all| ==> g.all[i].l.id == i)
    && HeavyOk(ks[h], g.all[h])
    && (forall i :: 0 <= i < |g.all| && i != h ==> LightOk(|names|, h, g.all[i].l))
    && (forall p :: p in g.net ==> PacketOk(h, p))
  }

  lemma InitIsOk(c: Crypto, names: seq<Bytes>, ks: seq<Committee>, inputs: seq<Input>, h: nat)
    requires AreCommittees(names, ks) && |inputs| == |names| && h < |names|
    ensures Inv(names, ks, h, Init(c, names, ks, inputs))
  {
    hide Begin, HeavyOk, LightOk;
    BeginIsHeavyOk(c, names, ks[h], h, inputs[h]);
    forall i | 0 <= i < |names| ensures Begin(c, names, ks[i], i, inputs[i]).l.id == i && (i != h ==> LightOk(|names|, h, Begin(c, names, ks[i], i, inputs[i]).l)) {
      BeginIsInStep(c, names, ks[i], i, inputs[i]);
      if i != h { BeginIsLightOk(c, names, ks[i], i, inputs[i], h); }
    }
  }

  lemma ApplyKeepsInv(c: Crypto, names: seq<Bytes>, ks: seq<Committee>, h: nat, g: Shards, e: Event)
    requires AreCommittees(names, ks) && Inv(names, ks, h, g) && IsHeavy(ks[h]) && Enabled(c, g, e)
    ensures Apply(c, names, ks, g, e).Some? && Inv(names, ks, h, Apply(c, names, ks, g, e).value)
  {
    hide IsHeavy, HeavyOk, LightOk, Handle, HashOf;
    var (k, v, a) := (ks[e.i], g.all[e.i], ArrivalOf(e));
    if a.Told? { assert PacketOk(h, Packet(e.i, a.msg)); }
    if e.i == h {
      HeavyHandles(c, names, k, v, a, e.inp);
    } else {
      LightHandles(c, names, k, h, v, a, e.inp);
    }
    var r := Handle(c, names, k, v, a, e.inp).value;
    forall p | p in r.1 ensures PacketOk(h, p) {
      SentAre(c, names, k, v, a, e.inp, p);
      if e.i == h { SentIsFirst(c, names, k, v, a); }
    }
  }

  lemma SentIsFirst(c: Crypto, names: seq<Bytes>, k: Committee, v: Voting, a: Arrival)
    requires k.me < |k.w| && IsHeavy(k) && HeavyOk(k, v) && v.l.step == LeaderVote
    requires a.Voted? ==> a.vote.data == [HashOf(c, FetchBlock(v.l.pool, 2))]
    ensures a.Voted? && Agg(k, Cast(k.w, v.ballot, a.vote)).Some? ==> IsFirstVote(Agg(k, Cast(k.w, v.ballot, a.vote)).value)
    ensures a.Told? && v.l.agg.Some? ==> IsFirstVote(v.l.agg.value)
  {
    hide IsHeavy, Agg, Cast, VotesAreFirst, IsFirstVote;
    assert v.l.view == 1 && |v.l.pool| == 1 by { VotingIsView1(k, v.l); }
    if a.Voted? {
      CastKeepsFirst(k, v.ballot, a.vote);
      FirstAgg(k, Cast(k.w, v.ballot, a.vote));
    }
  }

  lemma VotingIsView1(k: Committee, l: Leader)
    requires k.me < |k.w| && IsHeavy(k) && InStep(k, l) && l.step == LeaderVote
    ensures l.view == 1 && |l.pool| == 1
  {
    hide IsHeavy;
  }

  /** If one leader weighs two thirds of its shard, no handler of any run panics and no leader of any shard passes view 2. */
  lemma {:induction false} NoShardPassesView2(c: Crypto, names: seq<Bytes>, ks: seq<Committee>, inputs: seq<Input>, es: seq<Event>, h: nat)
    requires AreCommittees(names, ks) && |inputs| == |names| && h < |names| && IsHeavy(ks[h]) && IsRun(c, names, ks, inputs, es)
    ensures var r := After(c, names, ks, inputs, es);
            r.Some? && Inv(names, ks, h, r.value) && forall i :: 0 <= i < |r.value.all| ==> r.value.all[i].l.view <= 2
    decreases |es|
  {
    hide Inv, Enabled, Apply, Init, IsHeavy;
    if es == [] {
      InitIsOk(c, names, ks, inputs, h);
    } else {
      var front := Front(es);
      NoShardPassesView2(c, names, ks, inputs, front, h);
      ApplyKeepsInv(c, names, ks, h, After(c, names, ks, inputs, front).value, Last(es));
    }
    var g := After(c, names, ks, inputs, es).value;
    forall i | 0 <= i < |g.all| ensures g.all[i].l.view <= 2 { ViewsAreLow(names, ks, h, g, i); }
  }

  lemma ViewsAreLow(names: seq<Bytes>, ks: seq<Committee>, h: nat, g: Shards, i: nat)
    requires AreCommittees(names, ks) && Inv(names, ks, h, g) && IsHeavy(ks[h]) && i < |g.all|
    ensures g.all[i].l.view <= 2
  {
    hide IsHeavy, LightOk, InStep;
    if i == h { HeavyViews(ks[h], g.all[h].l); } else { LightInRange(|names|, h, g.all[i].l); }
  }
}
