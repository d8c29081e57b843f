/** All shard leaders over an asynchronous network: runs, and what holds in every state of every run. */
module UrdRun {
  import opened Bytes
  import opened UrdTypes
  import opened UrdHistory
  import opened UrdPipeline
  import opened UrdLeader
  import opened UrdLockstep

  /** A packet stays in the network once sent: it may be delivered late, out of order, again, or never. */
  datatype Global = Global(leaders: seq<Leader>, net: set<Packet>)

  /** A quorum of a shard votes, or a packet arrives; either may lead to a proposal, which takes the input. */
  datatype Event = Quorum(i: nat, vote: AggVote, inp: Input) | Deliver(i: nat, msg: CrossShardMessage, inp: Input)

  function Histories(g: Global): (hs: seq<History>)
    ensures |hs| == |g.leaders| && forall i :: 0 <= i < |hs| ==> hs[i] == g.leaders[i].history
  {
    seq(|g.leaders|, i requires 0 <= i < |g.leaders| => g.leaders[i].history)
  }

  function Put(g: Global, i: nat, l: Leader, packets: set<Packet>): Global
    requires i < |g.leaders|
  {
    Global(g.leaders[i := l], g.net + packets)
  }

  predicate InputFits(names: seq<Bytes>, inp: Input) {
    |inp.opTxs| == |names| && inp.ownQuorum == None
  }

  predicate InputsFit(names: seq<Bytes>, inputs: seq<Input>) {
    |inputs| == |names| && forall i :: 0 <= i < |inputs| ==> InputFits(names, inputs[i])
  }

  ghost predicate Enabled(c: Crypto, names: seq<Bytes>, g: Global, e: Event) {
    && e.i < |g.leaders| == |names| && InputFits(names, e.inp)
    && var l := g.leaders[e.i];
       match e
       case Quorum(_, vote, _) =>
         l.step == LeaderVote && l.agg == None && l.view >= 1 && |l.history.chain| == l.view && VoteFits(c, l, vote)
       case Deliver(_, msg, _) => Packet(e.i, msg) in g.net
  }

  /** The leader's state when handle_state_transition is entered. */
  function Entering(g: Global, e: Event): Leader
    requires e.i < |g.leaders|
  {
    match e
    case Quorum(i, vote, _) => g.leaders[i].(agg := Some(vote))
    case Deliver(i, msg, _) => Accept(g.leaders[i], msg)
  }

  predicate IsRefused(c: Crypto, names: seq<Bytes>, g: Global, e: Event)
    requires e.i < |g.leaders|
  {
    e.Deliver? && Refused(c, |names|, g.leaders[e.i], e.msg)
  }

  /** The handler runs to its end: every lookup on the way succeeds. */
  predicate NoPanic(c: Crypto, names: seq<Bytes>, g: Global, e: Event)
    requires e.i < |g.leaders|
  {
    !IsRefused(c, names, g, e) ==> Entering(g, e).id < |names| && DriveIsDefined(c, |names|, Entering(g, e))
  }

  function Apply(c: Crypto, names: seq<Bytes>, g: Global, e: Event): Global
    requires e.i < |g.leaders| && NoPanic(c, names, g, e)
  {
    if IsRefused(c, names, g, e) then g
    else Put(g, e.i, Drive(c, names, Entering(g, e), e.inp), Sent(c, |names|, Entering(g, e)))
  }

  function Init(c: Crypto, names: seq<Bytes>, inputs: seq<Input>): Global
    requires |inputs| == |names|
  {
    Global(seq(|names|, i requires 0 <= i < |names| => Start(c, names, i, inputs[i])), {})
  }

  /** The event can happen in g, its handler runs to its end, and leaves g'. */
  ghost predicate Takes(c: Crypto, names: seq<Bytes>, g: Global, e: Event, g': Global) {
    Enabled(c, names, g, e) && NoPanic(c, names, g, e) && g' == Apply(c, names, g, e)
  }

  /** The events lead from the start of all leaders to g. */
  ghost predicate Reaches(c: Crypto, names: seq<Bytes>, inputs: seq<Input>, es: seq<Event>, g: Global)
    requires |inputs| == |names|
    decreases |es|
  {
    if es == [] then g == Init(c, names, inputs)
    else exists g0 :: Reaches(c, names, inputs, Front(es), g0) && Takes(c, names, g0, Last(es), g)
  }

  // ----- the invariant -----

  ghost predicate NetOk(c: Crypto, hs: seq<History>, net: set<Packet>) {
    forall p :: p in net ==> exists t: nat, w: nat :: t != p.dest && p.dest < |hs| && IsMessage(c, hs, t, w, p.dest, p.msg)
  }

  ghost predicate Broadcast(c: Crypto, hs: seq<History>, net: set<Packet>, t: nat, w: nat, dest: nat)
    requires t < |hs|
  {
    HasMessage(hs[t], w) && t != dest && dest < |hs| ==>
      ProofReady(hs[t], w, dest) && Packet(dest, MessageAt(c, hs[t], t, w, dest)) in net
  }

  ghost predicate NetFull(c: Crypto, hs: seq<History>, net: set<Packet>) {
    forall t: nat, w: nat, dest: nat :: t < |hs| ==> Broadcast(c, hs, net, t, w, dest)
  }

  ghost predicate LeadersOk(c: Crypto, hs: seq<History>, leaders: seq<Leader>)
    requires |leaders| == |hs|
  {
    forall i :: 0 <= i < |leaders| ==> LocalOk(leaders[i]) && leaders[i].id == i && Held(c, hs, leaders[i])
  }

  ghost predicate Inv(c: Crypto, names: seq<Bytes>, g: Global) {
    && |g.leaders| == |names|
    && Aligned(c, Histories(g))
    && LeadersOk(c, Histories(g), g.leaders)
    && NetOk(c, Histories(g), g.net)
    && NetFull(c, Histories(g), g.net)
  }

  /** Between handlers a waiting leader lacks some message. */
  ghost predicate AtRest(g: Global) {
    forall i :: 0 <= i < |g.leaders| && g.leaders[i].step == LeaderWait ==> !IsComplete(g.leaders[i])
  }

  ghost predicate NoCollision(c: Crypto, hs: seq<History>) {
    forall t :: 0 <= t < |hs| ==> Distinct(c, hs[t])
  }

  // ----- the network -----

  lemma NetOkStable(c: Crypto, hs: seq<History>, hs': seq<History>, net: set<Packet>)
    requires GrowAll(hs, hs') && NetOk(c, hs, net)
    ensures NetOk(c, hs', net)
  {
    hide IsMessage, GrowAll;
    assert |hs| == |hs'| by { SameLength(hs, hs'); }
    forall p | p in net
      ensures exists t: nat, w: nat :: t != p.dest && p.dest < |hs'| && IsMessage(c, hs', t, w, p.dest, p.msg)
    {
      var t: nat, w: nat :| t != p.dest && p.dest < |hs| && IsMessage(c, hs, t, w, p.dest, p.msg);
      IsMessageStable(c, hs, hs', t, w, p.dest, p.msg);
    }
  }

  lemma SameLength(hs: seq<History>, hs': seq<History>)
    requires GrowAll(hs, hs')
    ensures |hs| == |hs'|
  {
  }

  lemma BroadcastStable(c: Crypto, hs: seq<History>, hs': seq<History>, net: set<Packet>, net': set<Packet>, t: nat, w: nat, dest: nat)
    requires GrowAll(hs, hs') && t < |hs| && Broadcast(c, hs, net, t, w, dest) && net <= net'
    requires HasMessage(hs'[t], w) ==> HasMessage(hs[t], w)
    ensures Broadcast(c, hs', net', t, w, dest)
  {
    hide MessageAt;
    if HasMessage(hs'[t], w) && t != dest && dest < |hs| {
      MessageAtStable(c, hs[t], hs'[t], t, w, dest);
    }
  }

  lemma HistoriesOfPut(g: Global, i: nat, l: Leader, packets: set<Packet>)
    requires i < |g.leaders|
    ensures Histories(Put(g, i, l, packets)) == Histories(g)[i := l.history]
  {
  }

  /** One leader changes: the others keep what they hold, and the network what it carries. */
  lemma OthersKeep(c: Crypto, names: seq<Bytes>, g: Global, i: nat, l: Leader, packets: set<Packet>)
    requires Inv(c, names, g) && i < |g.leaders| && l.id == i && LocalOk(l)
    requires var hs' := Histories(g)[i := l.history];
             GrowAll(Histories(g), hs') && Aligned(c, hs') && Held(c, hs', l)
    ensures var hs' := Histories(g)[i := l.history];
            LeadersOk(c, hs', Put(g, i, l, packets).leaders) && NetOk(c, hs', g.net)
  {
    hide Held, LocalOk, Aligned, GrowAll, NetOk;
    var hs' := Histories(g)[i := l.history];
    NetOkStable(c, Histories(g), hs', g.net);
    forall t | 0 <= t < |hs'| ensures |hs'[t].votes| <= |hs'[t].chain| { VotesWithinChain(c, hs', t); }
    forall j | 0 <= j < |g.leaders| && j != i ensures Held(c, hs', g.leaders[j]) {
      HeldStable(c, Histories(g), hs', g.leaders[j]);
    }
  }

  lemma NetFullStable(c: Crypto, hs: seq<History>, hs': seq<History>, net: set<Packet>)
    requires GrowAll(hs, hs') && NetFull(c, hs, net)
    requires forall t :: 0 <= t < |hs| ==> hs'[t].votes == hs[t].votes && |hs[t].votes| <= |hs[t].chain| && |hs[t].votes| <= |hs[t].outputs|
    ensures NetFull(c, hs', net)
  {
    forall t: nat, w: nat, dest: nat | t < |hs'| ensures Broadcast(c, hs', net, t, w, dest) {
      assert Broadcast(c, hs, net, t, w, dest);
      BroadcastStable(c, hs, hs', net, net, t, w, dest);
    }
  }

  // ----- each step keeps the invariant -----

  lemma AcceptKeepsInv(c: Crypto, names: seq<Bytes>, g: Global, i: nat, m: CrossShardMessage)
    requires Inv(c, names, g) && NoCollision(c, Histories(g)) && i < |g.leaders| && Packet(i, m) in g.net
    ensures Inv(c, names, Put(g, i, Accept(g.leaders[i], m), {}))
    ensures Accept(g.leaders[i], m).step == g.leaders[i].step && Accept(g.leaders[i], m).history == g.leaders[i].history
  {
    hide Aligned, Held, NetFull, IsMessage, Distinct;
    var hs, l := Histories(g), g.leaders[i];
    var l' := Accept(l, m);
    var p := Packet(i, m);
    var t: nat, w: nat :| t != p.dest && p.dest < |hs| && IsMessage(c, hs, t, w, p.dest, p.msg);
    assert IsMessage(c, hs, t, w, l.id, m);
    assert t < |hs| by { MessageInRange(c, hs, t, w, l.id, m); }
    AcceptKeepsHeld(c, hs, l, t, w, m);
    AcceptKeepsLocal(l, m);
    assert Histories(Put(g, i, l', {})) == hs;
    assert Put(g, i, l', {}).net == g.net;
  }

  lemma AcceptKeepsLocal(l: Leader, m: CrossShardMessage)
    requires LocalOk(l)
    ensures LocalOk(Accept(l, m)) && Accept(l, m).id == l.id
    ensures Accept(l, m).step == l.step && Accept(l, m).history == l.history && Accept(l, m).view == l.view
  {
    hide LastHash, Window;
    var l' := Accept(l, m);
    assert l'.pool == l.pool && l'.j1Txs == l.j1Txs && l'.j2Txs == l.j2Txs && l'.agg == l.agg;
  }

  lemma LeaderFacts(c: Crypto, names: seq<Bytes>, g: Global, i: nat)
    requires Inv(c, names, g) && i < |g.leaders|
    ensures |g.leaders| == |names| == |Histories(g)| && Histories(g)[i] == g.leaders[i].history && g.leaders[i].id == i
    ensures Aligned(c, Histories(g)) && LocalOk(g.leaders[i]) && Held(c, Histories(g), g.leaders[i])
  {
    hide Aligned, LocalOk, Held, NetOk, NetFull;
  }

  /** The packets of a communication are exactly the leader's messages of this view. */
  lemma PacketsAreMessages(c: Crypto, hs: seq<History>, l: Leader, v: AggVote, dest: nat)
    requires ReadyToCommunicate(c, hs, l, v) && dest < |hs| && dest != l.id
    ensures var hs' := AfterVote(hs, l.id, v);
            && HasMessage(hs'[l.id], l.view) && ProofReady(hs'[l.id], l.view, dest)
            && MakeMessage(c, l.(agg := Some(v)), dest) == MessageAt(c, hs'[l.id], l.id, l.view, dest)
            && Packet(dest, MessageAt(c, hs'[l.id], l.id, l.view, dest)) in Packets(c, |hs|, l.(agg := Some(v)))
  {
    hide MakeMessage, MessageAt, Aligned, Held, LocalOk;
    MessageIsAligned(c, hs, l, v, dest);
  }

  lemma NetOkAfterVote(c: Crypto, hs: seq<History>, l: Leader, v: AggVote, net: set<Packet>)
    requires ReadyToCommunicate(c, hs, l, v) && NetOk(c, AfterVote(hs, l.id, v), net)
    ensures NetOk(c, AfterVote(hs, l.id, v), net + Packets(c, |hs|, l.(agg := Some(v))))
  {
    hide MakeMessage, MessageAt, ReadyToCommunicate;
    assert l.id < |hs| && CommunicateIsDefined(|hs|, l.(agg := Some(v))) by { UnpackReady(c, hs, l, v); }
    var hs', l1 := AfterVote(hs, l.id, v), l.(agg := Some(v));
    forall p | p in net + Packets(c, |hs|, l1)
      ensures exists t: nat, w: nat :: t != p.dest && p.dest < |hs'| && IsMessage(c, hs', t, w, p.dest, p.msg)
    {
      if p in Packets(c, |hs|, l1) {
        PacketsAreMessages(c, hs, l, v, p.dest);
        assert IsMessage(c, hs', l.id, l.view, p.dest, p.msg);
      }
    }
  }

  lemma UnpackReady(c: Crypto, hs: seq<History>, l: Leader, v: AggVote)
    requires ReadyToCommunicate(c, hs, l, v)
    ensures Aligned(c, hs) && Held(c, hs, l) && l.id < |hs| && hs[l.id] == l.history && LocalOk(l) && l.view >= 1
    ensures |l.history.votes| == l.view - 1
    ensures CommunicateIsDefined(|hs|, l.(agg := Some(v)))
  {
    hide Aligned, Held;
  }

  lemma NetFullAfterVote(c: Crypto, hs: seq<History>, l: Leader, v: AggVote, net: set<Packet>)
    requires ReadyToCommunicate(c, hs, l, v) && NetFull(c, hs, net)
    ensures NetFull(c, AfterVote(hs, l.id, v), net + Packets(c, |hs|, l.(agg := Some(v))))
  {
    hide MakeMessage, MessageAt, ReadyToCommunicate, GrowAll, ProofReady, Aligned, Held, LocalOk, CommunicateIsDefined, Packets;
    UnpackReady(c, hs, l, v);
    AlignedAfterVote(c, hs, l, v);
    var hs', net' := AfterVote(hs, l.id, v), net + Packets(c, |hs|, l.(agg := Some(v)));
    forall t: nat, w: nat, dest: nat | t < |hs'| ensures Broadcast(c, hs', net', t, w, dest) {
      assert Broadcast(c, hs, net, t, w, dest);
      if t == l.id && w == l.view {
        if t != dest && dest < |hs| {
          PacketsAreMessages(c, hs, l, v, dest);
        }
      } else {
        BroadcastStable(c, hs, hs', net, net', t, w, dest);
      }
    }
  }

  lemma CommunicateKeepsInv(c: Crypto, names: seq<Bytes>, g: Global, i: nat, v: AggVote)
    requires Inv(c, names, g) && NoCollision(c, Histories(g)) && i < |g.leaders| && g.leaders[i].step == LeaderVote
    requires g.leaders[i].view >= 1 && |g.leaders[i].history.chain| == g.leaders[i].view && VoteFits(c, g.leaders[i], v)
    ensures var l := g.leaders[i].(agg := Some(v));
            && CommunicateIsDefined(|names|, l)
            && Inv(c, names, Put(g, i, Communicate(c, |names|, l), Packets(c, |names|, l)))
            && Communicate(c, |names|, l).step == LeaderWait
  {
    hide Aligned, Held, NetFull, NetOk, LocalOk, Packets, Communicate, GrowAll, Distinct, VoteFits, CommunicateIsDefined, LeadersOk;
    var hs, l := Histories(g), g.leaders[i];
    LeaderFacts(c, names, g, i);
    CommunicateIsDefinedHere(c, hs, l, v);
    assert ReadyToCommunicate(c, hs, l, v);
    var l' := Communicate(c, |names|, l.(agg := Some(v)));
    AlignedAfterVote(c, hs, l, v);
    CommunicateKeepsHeld(c, hs, l, v);
    CommunicateKeepsLocal(c, |names|, l, v);
    CommunicateStep(c, |names|, l.(agg := Some(v)));
    OthersKeep(c, names, g, i, l', Packets(c, |names|, l.(agg := Some(v))));
    HistoriesOfPut(g, i, l', Packets(c, |names|, l.(agg := Some(v))));
    NetOkAfterVote(c, hs, l, v, g.net);
    NetFullAfterVote(c, hs, l, v, g.net);
  }

  lemma CommunicateStep(c: Crypto, n: nat, l: Leader)
    requires CommunicateIsDefined(n, l)
    ensures Communicate(c, n, l).step == LeaderWait && Communicate(c, n, l).id == l.id && Communicate(c, n, l).view == l.view
  {
  }

  lemma ProposeKeepsInv(c: Crypto, names: seq<Bytes>, g: Global, i: nat, inp: Input)
    requires Inv(c, names, g) && i < |g.leaders| && InputFits(names, inp)
    requires g.leaders[i].step == LeaderWait && IsComplete(g.leaders[i])
    ensures ProposeIsDefined(|names|, g.leaders[i])
    ensures g.leaders[i].id == i && Inv(c, names, Put(g, i, Propose(c, names, g.leaders[i], inp), {}))
  {
    hide Aligned, Held, NetFull, NetOk, LocalOk, Propose, GrowAll, IsComplete, ProposeIsDefined, LeadersOk, NextBlock, Grows;
    var hs, l := Histories(g), g.leaders[i];
    LeaderFacts(c, names, g, i);
    assert ReadyToPropose(c, names, hs, l, inp);
    ProposeIsDefinedHere(c, names, hs, l, inp);
    var l' := Propose(c, names, l, inp);
    AlignedAfterBlock(c, names, hs, l, inp);
    ProposeKeepsHeld(c, names, hs, l, inp);
    ProposeKeepsLocal(c, names, hs, l, inp);
    assert l'.id == i by { ProposeStep(c, names, l, inp); }
    OthersKeep(c, names, g, i, l', {});
    HistoriesOfPut(g, i, l', {});
    var hs' := AfterBlock(c, names, hs, l, inp);
    forall t | 0 <= t < |hs| ensures hs'[t].votes == hs[t].votes && |hs[t].votes| <= |hs[t].chain| && |hs[t].votes| <= |hs[t].outputs| {
      OutputsMatchChain(c, hs, t);
    }
    NetFullStable(c, hs, hs', g.net);
    assert Put(g, i, l', {}).net == g.net;
  }

  lemma OutputsMatchChain(c: Crypto, hs: seq<History>, t: nat)
    requires Aligned(c, hs) && t < |hs|
    ensures |hs[t].votes| <= |hs[t].chain| == |hs[t].outputs|
  {
  }

  lemma ProposeStep(c: Crypto, names: seq<Bytes>, l: Leader, inp: Input)
    requires l.id < |names| && ProposeIsDefined(|names|, l)
    ensures Propose(c, names, l, inp).id == l.id && Propose(c, names, l, inp).view == l.view + 1
    ensures inp.ownQuorum == None ==> Propose(c, names, l, inp).step == LeaderVote
    ensures Propose(c, names, l, inp).j1Finished == l.finished
  {
    hide MakeBlock;
  }

  // ----- a whole handler -----

  lemma WaitingDrive(c: Crypto, names: seq<Bytes>, g: Global, i: nat, inp: Input)
    requires Inv(c, names, g) && i < |g.leaders| && InputFits(names, inp) && g.leaders[i].step == LeaderWait
    ensures g.leaders[i].id == i && i < |names| && (IsComplete(g.leaders[i]) ==> ProposeIsDefined(|names|, g.leaders[i]))
    ensures var l' := DriveWait(c, names, g.leaders[i], inp);
            && Inv(c, names, Put(g, i, l', {}))
            && (l'.step == LeaderWait ==> !IsComplete(l'))
  {
    hide Inv, LocalOk, Held, Propose, IsComplete, ProposeIsDefined, Aligned;
    LeaderFacts(c, names, g, i);
    if IsComplete(g.leaders[i]) {
      ProposeKeepsInv(c, names, g, i, inp);
      ProposeStep(c, names, g.leaders[i], inp);
    } else {
      assert Put(g, i, g.leaders[i], {}) == g;
    }
  }

  lemma PutTwice(g: Global, i: nat, l: Leader, packets: set<Packet>, l': Leader)
    requires i < |g.leaders|
    ensures Put(Put(g, i, l, packets), i, l', {}) == Put(g, i, l', packets)
  {
  }

  /** Every handler finds all it looks up, and keeps the invariant. */
  lemma ApplyKeepsInv(c: Crypto, names: seq<Bytes>, g: Global, e: Event)
    requires Inv(c, names, g) && AtRest(g) && NoCollision(c, Histories(g)) && Enabled(c, names, g, e)
    ensures NoPanic(c, names, g, e)
    ensures Inv(c, names, Apply(c, names, g, e)) && AtRest(Apply(c, names, g, e))
  {
    hide Inv, LocalOk, Held, Propose, IsComplete, ProposeIsDefined, Aligned, Communicate, CommunicateIsDefined, Packets, DriveWait,
      NoCollision, Accept, Refused, VoteFits;
    LeaderFacts(c, names, g, e.i);
    var i, l := e.i, g.leaders[e.i];
    if IsRefused(c, names, g, e) {
    } else if e.Quorum? {
      CommunicateKeepsInv(c, names, g, i, e.vote);
      var l1 := l.(agg := Some(e.vote));
      var l2 := Communicate(c, |names|, l1);
      var g2 := Put(g, i, l2, Packets(c, |names|, l1));
      WaitingDrive(c, names, g2, i, e.inp);
      PutTwice(g, i, l2, Packets(c, |names|, l1), DriveWait(c, names, l2, e.inp));
    } else {
      AcceptKeepsInv(c, names, g, i, e.msg);
      var l1 := Accept(l, e.msg);
      var g1 := Put(g, i, l1, {});
      LeaderFacts(c, names, g1, i);
      if l1.step == LeaderVote {
        VotingLeader(l1);
      } else {
        WaitingDrive(c, names, g1, i, e.inp);
        PutTwice(g, i, l1, {}, DriveWait(c, names, l1, e.inp));
      }
    }
  }

  lemma VotingLeader(l: Leader)
    requires LocalOk(l) && l.step == LeaderVote
    ensures l.agg == None
  {
  }

  // ----- the start -----

  lemma StartFacts(c: Crypto, names: seq<Bytes>, id: nat, inp: Input)
    requires id < |names| && inp.ownQuorum == None
    ensures var l := Start(c, names, id, inp);
            && LocalOk(l) && l.id == id && l.view == 1 && l.step == LeaderVote
            && l.finished == map[] && l.store == map[] && l.lastHash.Keys == Ids(|names|)
            && (forall t :: t in l.lastHash ==> l.lastHash[t] == [])
            && |l.history.chain| == 1 && l.history.votes == [] && l.history.outputs == [[]]
            && var b := l.history.chain[0];
               && FreshRoots(b.header) && b.header.view == 1 && b.header.round == 0 && b.header.hashPointer == [] && b.opt == RootsOf(c, [])
               && b.aggSigVote == None && b.ci == None && b.cc == [] && b.ctxs == [] && b.ctxsProof == []
  {
    var l0 := Fresh(|names|, id);
    assert l0.pool == [];
    assert FetchBlock(l0.pool, 1) == None && FetchBlock(l0.pool, 2) == None;
    var b := MakeBlock(c, names, id, 1, [], map[], [], inp);
    assert AppendBlock([], b) == [b] == Window([b]);
  }

  lemma StartHeld(c: Crypto, hs: seq<History>, l: Leader)
    requires l.view == 1 && l.step == LeaderVote && l.finished == map[] && l.store == map[] && l.lastHash.Keys == Ids(|hs|)
    requires forall t :: t in l.lastHash ==> l.lastHash[t] == []
    requires forall t :: 0 <= t < |hs| ==> hs[t].votes == []
    ensures Held(c, hs, l)
  {
    hide IsMessage;
  }

  lemma StartChain(c: Crypto, hs: seq<History>, s: nat)
    requires s < |hs| && |hs[s].chain| == 1 && hs[s].votes == [] && hs[s].outputs == [[]]
    requires var b := hs[s].chain[0];
             && FreshRoots(b.header) && b.header.view == 1 && b.header.round == 0 && b.header.hashPointer == [] && b.opt == RootsOf(c, [])
             && b.aggSigVote == None && b.ci == None && b.cc == [] && b.ctxs == [] && b.ctxsProof == []
    ensures OwnChain(c, |hs|, hs[s]) && ChainHolds(c, hs, s)
  {
    hide FreshRoots, VoteInPlace, AllSent, VotesOf;
    assert BlockInPlace(c, |hs|, hs[s], 1);
    assert BlockHolds(c, hs, s, 1);
  }

  lemma InitKeepsInv(c: Crypto, names: seq<Bytes>, inputs: seq<Input>)
    requires InputsFit(names, inputs)
    ensures Inv(c, names, Init(c, names, inputs)) && AtRest(Init(c, names, inputs))
  {
    hide Start, IsMessage, LocalOk, FreshRoots, Held, OwnChain, ChainHolds, RootsOf;
    var g := Init(c, names, inputs);
    var hs := Histories(g);
    forall t | 0 <= t < |names| ensures hs[t].votes == [] {
      StartFacts(c, names, t, inputs[t]);
    }
    forall i | 0 <= i < |g.leaders|
      ensures LocalOk(g.leaders[i]) && g.leaders[i].id == i && g.leaders[i].step == LeaderVote
      ensures Held(c, hs, g.leaders[i]) && OwnChain(c, |hs|, hs[i]) && ChainHolds(c, hs, i)
    {
      StartFacts(c, names, i, inputs[i]);
      StartHeld(c, hs, g.leaders[i]);
      StartChain(c, hs, i);
    }
  }
}
