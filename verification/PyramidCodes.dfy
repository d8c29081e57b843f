/** What the codes of votes say: the outcome of the execution in advance at honest nodes (pyramid/consensus/main.go). */
module PyramidCodes {
  import opened Bytes
  import opened PyramidVotes
  import opened PyramidNode
  import opened PyramidRun
  import opened PyramidProgress

  /** Between g and g', node i leaves the propose step of height h, in an event in which the execution in advance said code. */
  predicate LeavesPropose(g: System, g': System, e: Event, i: nat, h: nat, code: bool) {
    && i < |g.nodes| == |g'.nodes| && (e.BlockArrives? || e.PrevoteArrives? || e.PrecommitArrives?) && e.i == i && e.ok == code
    && g.nodes[i].height == h == g'.nodes[i].height && g.nodes[i].step == PROPOSE && g'.nodes[i].step > PROPOSE
  }

  /** In the run, node i has executed the block of height h in advance, with this outcome. */
  predicate HasExecuted(c: Config, es: seq<Event>, i: nat, h: nat, code: bool)
    requires IsRun(c, es)
    decreases |es|
  {
    es != [] &&
    (HasExecuted(c, Front(es), i, h, code) || LeavesPropose(After(c, Front(es)), After(c, es), Last(es), i, h, code))
  }

  /** A prevote that the handler casts is the node's own, on its block at its height, with the code of the event; and it is
      cast when the node leaves the propose step. */
  lemma CastPrevote(s: Seat, d: Node, ok: bool)
    requires s.me < |s.w| && StepsOk(d)
    ensures forall v :: v in Cast(s, d, ok).prevotes ==>
              d.step == PROPOSE && Drive(s, d, ok).step > PROPOSE && v.index == s.me && v.height == d.height && v.ok == ok
    ensures d.step == PROPOSE && Drive(s, d, ok).step > PROPOSE ==>
              exists v :: v in Cast(s, d, ok).prevotes && v.index == s.me && v.height == d.height && v.ok == ok
  {
    hide AddVote;
    if d.step == PROPOSE && d.block.Some? {
      ProposedSteps(s, d, ok);
      var d1 := DoPropose(s, d, ok);
      DriveRests(s, d1, ok);
      assert Cast(s, d1, ok).prevotes == {};
      assert OwnPrevote(s, d, ok) in Cast(s, d, ok).prevotes;
    }
  }

  /** One event adds an honest prevote exactly when its node leaves the propose step, and with the code of the event. */
  lemma EventPrevotes(c: Config, g: System, e: Event, i: nat, h: nat, code: bool)
    requires IsFair(c) && Inv(c, g) && Enabled(c, g, e) && IsHonest(c, i)
    ensures var g' := Apply(c, g, e);
            && g.prevotes <= g'.prevotes
            && (forall v :: v in g'.prevotes && v !in g.prevotes && v.index == i ==> LeavesPropose(g, g', e, i, v.height, v.ok))
            && (LeavesPropose(g, g', e, i, h, code) ==> exists v :: v in g'.prevotes && v.index == i && v.height == h && v.ok == code)
  {
    hide Inv, IsFair, Drive, Cast, StepsOk, IsAmbiguous, TakeBlock, TakePrevote, TakePrecommit, NewHeight;
    if !e.BadPrevote? && !e.BadPrecommit? && !e.GateOpens? {
      var (s, d) := (SeatOf(c, e.i), Taken(c, g, e));
      TakenIsBefore(c, g, e);
      CastPrevote(s, d, e.ok);
      assert Drive(s, d, e.ok).height == d.height by { DriveRests(s, d, e.ok); }
    }
  }

  /** In every run, an honest node has prevoted at a height with a code exactly when it has executed the block there in
      advance with that outcome. */
  lemma {:induction false} PrevotesSayOutcomes(c: Config, es: seq<Event>, i: nat, h: nat, code: bool)
    requires IsFair(c) && IsRun(c, es) && IsHonest(c, i)
    ensures (exists v :: v in After(c, es).prevotes && v.index == i && v.height == h && v.ok == code) <==> HasExecuted(c, es, i, h, code)
    decreases |es|
  {
    hide IsFair, Inv, Enabled, Apply, LeavesPropose;
    if es != [] {
      var (g, g', e) := (After(c, Front(es)), After(c, es), Last(es));
      PrevotesSayOutcomes(c, Front(es), i, h, code);
      EveryRunIsInOrder(c, Front(es));
      EventPrevotes(c, g, e, i, h, code);
    }
  }

  /** No node has two outcomes at one height. */
  lemma OneOutcome(c: Config, es: seq<Event>, i: nat, h: nat)
    requires IsFair(c) && IsRun(c, es) && IsHonest(c, i)
    ensures !(HasExecuted(c, es, i, h, true) && HasExecuted(c, es, i, h, false))
  {
    hide IsFair, HasExecuted, After, IsRun, NodeOk, VotesOk;
    PrevotesSayOutcomes(c, es, i, h, true);
    PrevotesSayOutcomes(c, es, i, h, false);
    EveryRunIsInOrder(c, es);
  }

  /** What a quorum precommits was at some honest node the block at hand and the outcome of executing it in advance. */
  lemma PrecommitsWereExecuted(c: Config, es: seq<Event>, h: nat, p: Pair) returns (i: nat)
    requires IsFair(c) && IsRun(c, es) && Supported(c, After(c, es).precommits, h, p)
    ensures IsHonest(c, i) && i < |After(c, es).nodes| && HasExecuted(c, es, i, h, p.1) && BlockAt(After(c, es).nodes[i], h) == p.0
  {
    hide IsFair, HasExecuted, After, IsRun, Supported, NodeOk, OneEach;
    var g := After(c, es);
    PrecommitsAreBacked(c, es, h, p);
    EveryRunIsInOrder(c, es);
    i := QuorumHasHonest(c, g.prevotes, h, p);
    var v := Vote(h, i, p.0, p.1);
    PrevotesSayOutcomes(c, es, i, h, p.1);
    assert VotesOk(c, g, i, g.nodes[i]);
    assert PrevoteOk(g.nodes[i], v);
  }

  /** If at no honest node the execution in advance at height h had this outcome, no honest node finishes the height with it. */
  lemma NoOutcomeNoCommit(c: Config, es: seq<Event>, h: nat, code: bool, j: nat)
    requires IsFair(c) && IsRun(c, es) && IsHonest(c, j)
    requires forall i :: 0 <= i < |c.w| && IsHonest(c, i) ==> !HasExecuted(c, es, i, h, code)
    ensures |After(c, es).nodes| == |c.w|
    ensures var log := After(c, es).nodes[j].log;
            h < |log| ==> log[h].precommits.majority.Some? && log[h].precommits.majority.value.1 != code
  {
    hide IsFair, HasExecuted, After, IsRun, Supported;
    MajoritiesMatch(c, es, j, h);
    var log := After(c, es).nodes[j].log;
    if h < |log| && log[h].precommits.majority.value.1 == code {
      var i := PrecommitsWereExecuted(c, es, h, log[h].precommits.majority.value);
    }
  }
}
