/** Every run of the leaders can be carried on to any view. */
module UrdProgress {
  import opened Bytes
  import opened UrdTypes
  import opened UrdHistory
  import opened UrdPipeline
  import opened UrdLeader
  import opened UrdLockstep
  import opened UrdRun
  import opened UrdTheorems

  // ----- a measure of what has been done -----

  /** What one of n leaders has done: views, messages held, and a message sent. */
  function Work(n: nat, l: Leader): nat {
    l.view * (n + 2) + |l.finished| + if l.step == LeaderWait then 1 else 0
  }

  function TotalWork(n: nat, leaders: seq<Leader>): nat {
    if leaders == [] then 0 else TotalWork(n, leaders[..|leaders| - 1]) + Work(n, leaders[|leaders| - 1])
  }

  lemma {:induction false} OneWorksMore(n: nat, leaders: seq<Leader>, i: nat, l: Leader)
    requires i < |leaders| && Work(n, l) > Work(n, leaders[i])
    ensures TotalWork(n, leaders[i := l]) > TotalWork(n, leaders)
  {
    hide Work;
    var (m, ls) := (|leaders| - 1, leaders[i := l]);
    if i == m {
      assert ls[..m] == leaders[..m];
    } else {
      assert ls[..m] == leaders[..m][i := l];
      OneWorksMore(n, leaders[..m], i, l);
    }
  }

  lemma {:induction false} WorkIsBounded(n: nat, leaders: seq<Leader>, bound: nat)
    requires forall i :: 0 <= i < |leaders| ==> Work(n, leaders[i]) <= bound
    ensures TotalWork(n, leaders) <= |leaders| * bound
  {
    hide Work;
    if leaders != [] {
      var m := |leaders| - 1;
      WorkIsBounded(n, leaders[..m], bound);
      assert Work(n, leaders[m]) <= bound;
      assert (m + 1) * bound == m * bound + bound;
    }
  }

  // ----- the handlers do work -----

  lemma ViewIsWorth(n: nat, v: nat)
    ensures (v + 1) * (n + 2) == v * (n + 2) + n + 2
  {
  }

  /** A new view is worth more than all messages of the old one. */
  lemma ProposingWorks(c: Crypto, names: seq<Bytes>, l: Leader, inp: Input)
    requires l.id < |names| && ProposeIsDefined(|names|, l) && inp.ownQuorum == None && |l.finished| <= |names|
    ensures Work(|names|, Propose(c, names, l, inp)) > Work(|names|, l)
  {
    hide MakeBlock;
    ViewIsWorth(|names|, l.view);
  }

  lemma WaitingWorks(c: Crypto, names: seq<Bytes>, l: Leader, inp: Input)
    requires l.id < |names| && (IsComplete(l) ==> ProposeIsDefined(|names|, l)) && inp.ownQuorum == None && |l.finished| <= |names|
    ensures Work(|names|, DriveWait(c, names, l, inp)) >= Work(|names|, l)
  {
    hide Propose, Work, ProposeIsDefined, IsComplete;
    if IsComplete(l) { ProposingWorks(c, names, l, inp); }
  }

  lemma HoldsAtMostAll(c: Crypto, hs: seq<History>, l: Leader)
    requires Held(c, hs, l)
    ensures |l.finished| <= |hs|
  {
    hide HoldsFrom, StoredOk, CaughtUp;
    SmallerSet(l.finished.Keys, Ids(|hs|));
    assert |l.finished| == |l.finished.Keys|;
  }

  lemma ExtendingWorks(l: Leader, m: CrossShardMessage)
    requires m.source !in l.finished
    ensures |ExtendHash(l, m).finished| == |l.finished| + 1
  {
    assert |l.finished| == |l.finished.Keys|;
    var l' := ExtendHash(l, m);
    assert l'.finished.Keys == l.finished.Keys + {m.source};
    assert |l'.finished| == |l'.finished.Keys|;
  }

  /** A useful packet is one more message held. */
  lemma AcceptingWorks(n: nat, l: Leader, m: CrossShardMessage)
    requires m.source !in l.finished && m.source in Accept(l, m).finished
    ensures Work(n, Accept(l, m)) > Work(n, l)
  {
    hide LastHash;
    ExtendingWorks(l.(store := l.store[(m.source, LastHash(m.aggVote)) := m]), m);
  }

  /** Communicating adds at least the leader's own message. */
  lemma CommunicatingWorks(c: Crypto, n: nat, l: Leader)
    requires CommunicateIsDefined(n, l) && l.id !in l.finished && l.step == LeaderVote
    ensures Work(n, Communicate(c, n, l)) > Work(n, l)
  {
    hide MakeMessage, Redo, MessageIsDefined;
    var l' := Communicate(c, n, l);
    RedoKeys(l);
    CommunicateStep(c, n, l);
    SmallerSet(l.finished.Keys, l'.finished.Keys);
    assert |l.finished| == |l.finished.Keys| && |l'.finished| == |l'.finished.Keys|;
  }

  // ----- one more step -----

  /** An input and a vote that may come at any time. */
  function AnyInput(n: nat): Input {
    Input(seq(n, _ => []), None, None, [], None)
  }

  function NextVote(c: Crypto, l: Leader): AggVote
    requires l.view >= 1 && |l.history.chain| == l.view
  {
    AggVote(true, l.view, 0, HashAt(c, l.history, l.view), [HashAt(c, l.history, l.view - 1)], [], [])
  }

  lemma QuorumWorks(c: Crypto, names: seq<Bytes>, g: Global, i: nat) returns (e: Event)
    requires Inv(c, names, g) && AtRest(g) && NoCollision(c, Histories(g)) && i < |g.leaders| && g.leaders[i].step == LeaderVote
    ensures Enabled(c, names, g, e) && NoPanic(c, names, g, e)
    ensures TotalWork(|names|, Apply(c, names, g, e).leaders) > TotalWork(|names|, g.leaders)
  {
    hide Inv, AtRest, NoCollision, Aligned, HoldsFrom, StoredOk, CaughtUp, Communicate, CommunicateIsDefined, Packets, DriveWait, Work,
      TotalWork, HashAt, IsComplete, ProposeIsDefined;
    LeaderFacts(c, names, g, i);
    var l := g.leaders[i];
    assert l.view >= 1 && |l.history.chain| == l.view && l.agg == None by { VotingFacts(l); }
    e := Quorum(i, NextVote(c, l), AnyInput(|names|));
    assert LastHash(e.vote) == HashAt(c, l.history, l.view - 1);
    ApplyKeepsInv(c, names, g, e);
    var l1 := l.(agg := Some(e.vote));
    CommunicateKeepsInv(c, names, g, i, e.vote);
    var l2 := Communicate(c, |names|, l1);
    CommunicatingWorks(c, |names|, l1);
    assert Work(|names|, l1) == Work(|names|, l) by { AggIsNoWork(|names|, l, Some(e.vote)); }
    var g2 := Put(g, i, l2, Packets(c, |names|, l1));
    LeaderFacts(c, names, g2, i);
    HoldsAtMostAll(c, Histories(g2), l2);
    WaitingDrive(c, names, g2, i, e.inp);
    WaitingWorks(c, names, l2, e.inp);
    assert Apply(c, names, g, e).leaders == g.leaders[i := DriveWait(c, names, l2, e.inp)];
    OneWorksMore(|names|, g.leaders, i, DriveWait(c, names, l2, e.inp));
  }

  lemma VotingFacts(l: Leader)
    requires LocalOk(l) && l.step == LeaderVote
    ensures l.view >= 1 && |l.history.chain| == l.view && l.agg == None
  {
  }

  lemma AggIsNoWork(n: nat, l: Leader, agg: Option<AggVote>)
    ensures Work(n, l.(agg := agg)) == Work(n, l)
  {
  }

  lemma DeliveryWorks(c: Crypto, names: seq<Bytes>, g: Global, i: nat, m: CrossShardMessage) returns (e: Event)
    requires Inv(c, names, g) && AtRest(g) && NoCollision(c, Histories(g)) && Useful(c, names, g, i, m)
    requires i < |g.leaders| && g.leaders[i].step == LeaderWait
    ensures Enabled(c, names, g, e) && NoPanic(c, names, g, e)
    ensures TotalWork(|names|, Apply(c, names, g, e).leaders) > TotalWork(|names|, g.leaders)
  {
    hide Inv, AtRest, NoCollision, Aligned, Held, LocalOk, DriveWait, Work, TotalWork, IsComplete, ProposeIsDefined, Accept, Refused;
    LeaderFacts(c, names, g, i);
    var l := g.leaders[i];
    e := Deliver(i, m, AnyInput(|names|));
    ApplyKeepsInv(c, names, g, e);
    AcceptKeepsInv(c, names, g, i, m);
    var l1 := Accept(l, m);
    AcceptingWorks(|names|, l, m);
    var g1 := Put(g, i, l1, {});
    LeaderFacts(c, names, g1, i);
    HoldsAtMostAll(c, Histories(g1), l1);
    WaitingDrive(c, names, g1, i, e.inp);
    WaitingWorks(c, names, l1, e.inp);
    assert Apply(c, names, g, e).leaders == g.leaders[i := DriveWait(c, names, l1, e.inp)];
    OneWorksMore(|names|, g.leaders, i, DriveWait(c, names, l1, e.inp));
  }

  /** In every state of a run something can happen, and it is work. */
  lemma CanWork(c: Crypto, names: seq<Bytes>, inputs: seq<Input>, es: seq<Event>, g: Global) returns (e: Event)
    requires InputsFit(names, inputs) && Reaches(c, names, inputs, es, g) && NoClash(c, Histories(g)) && |names| >= 1
    ensures Enabled(c, names, g, e) && NoPanic(c, names, g, e)
    ensures TotalWork(|names|, Apply(c, names, g, e).leaders) > TotalWork(|names|, g.leaders)
  {
    hide Inv, AtRest, NoClash, NoCollision, Reaches, TotalWork, Useful, NoPanic, Enabled, Apply;
    EveryRunIsInOrder(c, names, inputs, es, g);
    InvIsAligned(c, names, g);
    NoClashMeansNoCollision(c, Histories(g));
    if i :| 0 <= i < |g.leaders| && g.leaders[i].step == LeaderVote {
      e := QuorumWorks(c, names, g, i);
    } else {
      forall i | 0 <= i < |g.leaders| ensures g.leaders[i].step == LeaderWait { OnlyTwoSteps(g.leaders[i]); }
      SomeoneCanMove(c, names, inputs, es, g);
      var i: nat, m :| Useful(c, names, g, i, m);
      assert i < |g.leaders| by { UsefulInRange(c, names, g, i, m); }
      e := DeliveryWorks(c, names, g, i, m);
    }
  }

  lemma OnlyTwoSteps(l: Leader)
    ensures l.step == LeaderVote || l.step == LeaderWait
  {
  }

  lemma UsefulInRange(c: Crypto, names: seq<Bytes>, g: Global, i: nat, m: CrossShardMessage)
    requires Useful(c, names, g, i, m)
    ensures i < |g.leaders|
  {
  }

  /** The most that n leaders can have done while one of them has not reached view v. */
  function Limit(n: nat, v: nat): nat {
    n * (v * (n + 2) + n + 1)
  }

  lemma BehindIsBounded(c: Crypto, names: seq<Bytes>, inputs: seq<Input>, es: seq<Event>, g: Global, s: nat, v: nat)
    requires InputsFit(names, inputs) && Reaches(c, names, inputs, es, g) && NoClash(c, Histories(g))
    requires s < |g.leaders| && g.leaders[s].view < v
    ensures |g.leaders| == |names| && TotalWork(|names|, g.leaders) <= Limit(|names|, v)
  {
    hide Inv, AtRest, NoClash, Reaches, TotalWork, Aligned, Held, LocalOk;
    EveryRunIsInOrder(c, names, inputs, es, g);
    InvIsAligned(c, names, g);
    var n := |names|;
    forall i | 0 <= i < |g.leaders| ensures Work(n, g.leaders[i]) <= v * (n + 2) + n + 1 {
      LeadersStayTogether(c, names, inputs, es, g, i, s);
      LeaderFacts(c, names, g, i);
      HoldsAtMostAll(c, Histories(g), g.leaders[i]);
      AtMostTimes(g.leaders[i].view, v, n + 2);
    }
    WorkIsBounded(n, g.leaders, v * (n + 2) + n + 1);
  }

  lemma AtMostTimes(a: nat, b: nat, k: nat)
    requires a <= b
    ensures a * k <= b * k
  {
  }

  /** All leaders have reached view v. */
  predicate AllReach(g: Global, v: nat) {
    forall i :: 0 <= i < |g.leaders| ==> g.leaders[i].view >= v
  }

  function Remaining(n: nat, v: nat, g: Global): nat {
    if TotalWork(n, g.leaders) <= Limit(n, v) then Limit(n, v) - TotalWork(n, g.leaders) + 1 else 0
  }

  /** While some leader is behind view v, no event takes a chain past v + 1 blocks. */
  lemma ViewsFitAfter(c: Crypto, names: seq<Bytes>, inputs: seq<Input>, es: seq<Event>, g: Global, e: Event, s: nat, v: nat)
    requires InputsFit(names, inputs) && Reaches(c, names, inputs, es, g) && NoClash(c, Histories(g)) && Enabled(c, names, g, e)
    requires s < |g.leaders| && g.leaders[s].view < v && v + 1 < VIEW_LIMIT && e.i < |g.leaders| && NoPanic(c, names, g, e)
    ensures ViewsFit(Histories(Apply(c, names, g, e)))
  {
    hide Inv, NoClash, Reaches, Aligned, Held, LocalOk, IsMessage, AtRest, Enabled, NoPanic, Apply;
    var g' := Apply(c, names, g, e);
    EveryRunIsInOrder(c, names, inputs, es, g);
    InvIsAligned(c, names, g);
    NoClashMeansNoCollision(c, Histories(g));
    ApplyKeepsInv(c, names, g, e);
    BarrierHolds(c, names, inputs, es, g, e);
    OthersStay(c, names, g, e, e.i);
    forall t | 0 <= t < |g'.leaders| ensures |Histories(g')[t].chain| < VIEW_LIMIT {
      ChainIsView(c, names, g', t);
      LeadersStayTogether(c, names, inputs, es, g, t, s);
      OthersStay(c, names, g, e, t);
    }
  }

  lemma ChainIsView(c: Crypto, names: seq<Bytes>, g: Global, t: nat)
    requires Inv(c, names, g) && t < |g.leaders|
    ensures |Histories(g)[t].chain| == g.leaders[t].view
  {
    hide Aligned, Held, Inv;
    LeaderFacts(c, names, g, t);
  }

  lemma OthersStay(c: Crypto, names: seq<Bytes>, g: Global, e: Event, t: nat)
    requires e.i < |g.leaders| && NoPanic(c, names, g, e) && t < |g.leaders|
    ensures |Apply(c, names, g, e).leaders| == |g.leaders| && (t != e.i ==> Apply(c, names, g, e).leaders[t] == g.leaders[t])
  {
    hide Drive, DriveIsDefined, Sent, Refused, Accept;
  }

  /** Whatever has happened, the run can go on until every leader has reached any given view that fits its eight
      bytes, unless two blocks of one chain give a collision away first. */
  lemma {:induction false} RunsCanReachAnyView(c: Crypto, names: seq<Bytes>, inputs: seq<Input>, es: seq<Event>, g: Global, v: nat)
    returns (es': seq<Event>, g': Global)
    requires InputsFit(names, inputs) && Reaches(c, names, inputs, es, g) && |names| >= 1
    requires v + 1 < VIEW_LIMIT && ViewsFit(Histories(g))
    ensures es <= es' && Reaches(c, names, inputs, es', g')
    ensures AllReach(g', v) || !NoneCollide(c, Histories(g'))
    decreases Remaining(|names|, v, g)
  {
    hide NoneCollide, ViewsFit, Reaches, TotalWork, NoPanic, Enabled, Apply, Limit;
    if AllReach(g, v) || !NoneCollide(c, Histories(g)) {
      es', g' := es, g;
    } else {
      var s :| 0 <= s < |g.leaders| && g.leaders[s].view < v;
      BehindIsBounded(c, names, inputs, es, g, s, v);
      var e := CanWork(c, names, inputs, es, g);
      NoRunPanics(c, names, inputs, es, g, e);
      ViewsFitAfter(c, names, inputs, es, g, e, s, v);
      es', g' := RunsCanReachAnyView(c, names, inputs, es + [e], Apply(c, names, g, e), v);
    }
  }
}
