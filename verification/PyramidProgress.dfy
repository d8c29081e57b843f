/** Every run in which one block has reached all honest nodes can be carried on until they have finished the height. */
module PyramidProgress {
  import opened Bytes
  import opened PyramidVotes
  import opened PyramidNode
  import opened PyramidRun

  // ----- what honest nodes have done -----

  /** The node waits for something it does not have. */
  predicate AtRest(d: Node) {
    && (d.step == PROPOSE ==> d.block.None?)
    && (d.step == PREVOTE ==> d.prevotes.majority.None?)
    && (d.step == PRECOMMIT ==> d.precommits.majority.None?)
  }

  predicate HasVote(net: set<Vote>, h: nat, i: nat) {
    exists v :: v in net && v.height == h && v.index == i
  }

  predicate IsPast(d: Node, h: nat, step: nat) {
    h < d.height || (h == d.height && d.step > step)
  }

  /** Whatever the node has voted on is signed and on its way. */
  ghost predicate HasSent(g: System, i: nat, d: Node) {
    && (forall h: nat :: IsPast(d, h, PROPOSE) ==> HasVote(g.prevotes, h, i))
    && (forall h: nat :: IsPast(d, h, PREVOTE) ==> HasVote(g.precommits, h, i))
  }

  ghost predicate Live(c: Config, g: System) {
    |g.nodes| == |c.w| && forall i :: 0 <= i < |g.nodes| && IsHonest(c, i) ==> AtRest(g.nodes[i]) && HasSent(g, i, g.nodes[i])
  }

  // ----- driving the handler -----

  /** From d the handler goes to d' and casts these votes. */
  predicate IsDriven(s: Seat, d: Node, d': Node, out: Out) {
    && AtRest(d') && StepsOk(d') && d'.height == d.height && d'.step >= d.step && d'.block == d.block && d.log <= d'.log
    && d.prevotes.votes.Keys <= d'.prevotes.votes.Keys && d.precommits.votes.Keys <= d'.precommits.votes.Keys
    && (d.step <= PROPOSE && d'.step > PROPOSE ==> HasVote(out.prevotes, d.height, s.me))
    && (d.step <= PREVOTE && d'.step > PREVOTE ==> HasVote(out.precommits, d.height, s.me))
    && (d.step > PROPOSE ==> out.prevotes == {})
  }

  lemma AddVoteGrows(t: Tally, v: Vote, weight: int, total: int)
    ensures t.votes.Keys <= AddVote(t, v, weight, total).votes.Keys
    ensures t.majority.Some? ==> AddVote(t, v, weight, total).majority == t.majority
    ensures v.index in AddVote(t, v, weight, total).votes
  {
    hide Threshold, Int32;
  }

  lemma ProposedSteps(s: Seat, d: Node, ok: bool)
    requires s.me < |s.w| && StepsOk(d) && d.step == PROPOSE && d.block.Some?
    ensures StepsOk(DoPropose(s, d, ok)) && d.prevotes.votes.Keys <= DoPropose(s, d, ok).prevotes.votes.Keys
  {
    hide AddVote;
    AddVoteGrows(d.prevotes, OwnPrevote(s, d, ok), s.w[s.me], Total(s.w));
  }

  lemma PrevotedSteps(s: Seat, d: Node)
    requires s.me < |s.w| && StepsOk(d) && d.step == PREVOTE && d.prevotes.majority.Some?
    ensures StepsOk(DoPrevote(s, d)) && d.precommits.votes.Keys <= DoPrevote(s, d).precommits.votes.Keys
  {
    hide AddVote;
    AddVoteGrows(d.precommits, OwnPrecommit(s, d), s.w[s.me], Total(s.w));
  }

  lemma {:induction false} DriveRests(s: Seat, d: Node, ok: bool)
    requires s.me < |s.w| && StepsOk(d)
    ensures IsDriven(s, d, Drive(s, d, ok), Cast(s, d, ok))
    decreases COMMIT - d.step
  {
    hide AddVote, HasVote;
    if d.step == PROPOSE && d.block.Some? {
      ProposedSteps(s, d, ok);
      var d1 := DoPropose(s, d, ok);
      DriveRests(s, d1, ok);
      HasOne(OwnPrevote(s, d, ok), Cast(s, d, ok).prevotes);
    } else if d.step == PREVOTE && d.prevotes.majority.Some? {
      PrevotedSteps(s, d);
      DriveRests(s, DoPrevote(s, d), ok);
      HasOne(OwnPrecommit(s, d), Cast(s, d, ok).precommits);
    } else if d.step == PRECOMMIT && d.precommits.majority.Some? {
      assert Drive(s, d, ok) == DoPrecommit(d);
    }
  }

  lemma HasOne(v: Vote, net: set<Vote>)
    requires v in net
    ensures HasVote(net, v.height, v.index)
  {
  }

  lemma HasMore(net: set<Vote>, net': set<Vote>, h: nat, i: nat)
    requires net <= net' && HasVote(net, h, i)
    ensures HasVote(net', h, i)
  {
  }

  // ----- every run -----

  /** Before the handler runs, the node is d: it has moved no step since its last call. */
  predicate IsBefore(d0: Node, d: Node) {
    d.height == d0.height && d.step == d0.step
  }

  lemma HandleKeepsLive(c: Config, g: System, i: nat, d: Node, ok: bool)
    requires Live(c, g) && IsHonest(c, i) && IsBefore(g.nodes[i], d) && StepsOk(d)
    ensures Live(c, Handle(c, g, i, d, ok))
  {
    hide HasVote, Drive, Cast, AtRest, StepsOk;
    var (s, g') := (SeatOf(c, i), Handle(c, g, i, d, ok));
    DriveRests(s, d, ok);
    var (d', out) := (Drive(s, d, ok), Cast(s, d, ok));
    forall h: nat | IsPast(d', h, PROPOSE) ensures HasVote(g'.prevotes, h, i) {
      if IsPast(g.nodes[i], h, PROPOSE) {
        HasMore(g.prevotes, g'.prevotes, h, i);
      } else {
        HasMore(out.prevotes, g'.prevotes, h, i);
      }
    }
    forall h: nat | IsPast(d', h, PREVOTE) ensures HasVote(g'.precommits, h, i) {
      if IsPast(g.nodes[i], h, PREVOTE) {
        HasMore(g.precommits, g'.precommits, h, i);
      } else {
        HasMore(out.precommits, g'.precommits, h, i);
      }
    }
    OthersStayLive(c, g, i, d', out);
  }

  lemma OthersStayLive(c: Config, g: System, i: nat, d: Node, out: Out)
    requires Live(c, g) && i < |g.nodes|
    requires IsHonest(c, i) ==> AtRest(d) && HasSent(Put(g, i, d, out), i, d)
    ensures Live(c, Put(g, i, d, out))
  {
    hide HasVote, AtRest, IsHonest;
    var g' := Put(g, i, d, out);
    forall j | 0 <= j < |g.nodes| && IsHonest(c, j) && j != i ensures HasSent(g', j, g'.nodes[j]) {
      forall h: nat | IsPast(g.nodes[j], h, PROPOSE) ensures HasVote(g'.prevotes, h, j) { HasMore(g.prevotes, g'.prevotes, h, j); }
      forall h: nat | IsPast(g.nodes[j], h, PREVOTE) ensures HasVote(g'.precommits, h, j) { HasMore(g.precommits, g'.precommits, h, j); }
    }
  }

  lemma GateKeepsLive(c: Config, g: System, i: nat)
    requires Live(c, g) && IsHonest(c, i) && g.nodes[i].step == COMMIT
    ensures Live(c, Put(g, i, NewHeight(g.nodes[i]), SILENT))
  {
    hide HasVote;
    var (d, d') := (g.nodes[i], NewHeight(g.nodes[i]));
    var g' := Put(g, i, d', SILENT);
    assert g'.prevotes == g.prevotes && g'.precommits == g.precommits;
    forall h: nat | IsPast(d', h, PROPOSE) || IsPast(d', h, PREVOTE) ensures HasVote(g.prevotes, h, i) && HasVote(g.precommits, h, i) {
      assert IsPast(d, h, PROPOSE) && IsPast(d, h, PREVOTE);
    }
    OthersStayLive(c, g, i, d', SILENT);
  }

  lemma BadVoteKeepsLive(c: Config, g: System, v: Vote, out: Out)
    requires Live(c, g) && v.index in c.bad && v.index < |c.w|
    ensures Live(c, Put(g, v.index, g.nodes[v.index], out))
  {
    hide HasVote, AtRest;
    OthersStayLive(c, g, v.index, g.nodes[v.index], out);
  }

  /** A message that node i takes: the node afterwards, before the handler runs. */
  function Taken(c: Config, g: System, e: Event): Node
    requires Enabled(c, g, e) && !e.BadPrevote? && !e.BadPrecommit? && !e.GateOpens?
  {
    var (s, d) := (SeatOf(c, e.i), g.nodes[e.i]);
    match e
    case BlockArrives(_, hash, _) => TakeBlock(d, hash)
    case PrevoteArrives(_, v, _) => if Counts(s, d, v) then TakePrevote(s, d, v) else d
    case PrecommitArrives(_, v, _) => if Counts(s, d, v) then TakePrecommit(s, d, v) else d
  }

  lemma TakenIsBefore(c: Config, g: System, e: Event)
    requires IsFair(c) && Inv(c, g) && Enabled(c, g, e) && !e.BadPrevote? && !e.BadPrecommit? && !e.GateOpens?
    ensures IsBefore(g.nodes[e.i], Taken(c, g, e)) && StepsOk(Taken(c, g, e))
  {
    hide AddVote, IsFair;
    StepsOfNode(c, g, e.i);
    hide Inv;
    var (s, d) := (SeatOf(c, e.i), g.nodes[e.i]);
    match e
    case BlockArrives(_, hash, _) =>
    case PrevoteArrives(_, v, _) => if Counts(s, d, v) { AddVoteGrows(d.prevotes, v, s.w[v.index], Total(s.w)); }
    case PrecommitArrives(_, v, _) => if Counts(s, d, v) { AddVoteGrows(d.precommits, v, s.w[v.index], Total(s.w)); }
  }

  lemma ApplyKeepsLive(c: Config, g: System, e: Event)
    requires IsFair(c) && Inv(c, g) && Live(c, g) && Enabled(c, g, e)
    ensures Live(c, Apply(c, g, e))
  {
    hide Inv, Live, IsFair, Handle, StepsOk, IsAmbiguous, TakeBlock, TakePrevote, TakePrecommit, NewHeight, IsBefore;
    match e
    case BadPrevote(v) =>
      BadVoteKeepsLive(c, g, v, Out({v}, {}));
      assert Put(g, v.index, g.nodes[v.index], Out({v}, {})) == Apply(c, g, e);
    case BadPrecommit(v) =>
      BadVoteKeepsLive(c, g, v, Out({}, {v}));
      assert Put(g, v.index, g.nodes[v.index], Out({}, {v})) == Apply(c, g, e);
    case GateOpens(i) => GateKeepsLive(c, g, i);
    case BlockArrives(i, _, ok) =>
      TakenIsBefore(c, g, e);
      HandleKeepsLive(c, g, i, Taken(c, g, e), ok);
    case PrevoteArrives(i, _, ok) =>
      TakenIsBefore(c, g, e);
      HandleKeepsLive(c, g, i, Taken(c, g, e), ok);
    case PrecommitArrives(i, _, ok) =>
      TakenIsBefore(c, g, e);
      HandleKeepsLive(c, g, i, Taken(c, g, e), ok);
  }

  /** In every run honest nodes are at rest between messages, and what they voted on is on its way. */
  lemma {:induction false} EveryRunIsLive(c: Config, es: seq<Event>)
    requires IsFair(c) && IsRun(c, es)
    ensures Inv(c, After(c, es)) && Live(c, After(c, es))
    decreases |es|
  {
    hide Inv, IsFair, Apply, Enabled;
    EveryRunIsInOrder(c, es);
    if es != [] {
      hide Live;
      EveryRunIsLive(c, Front(es));
      ApplyKeepsLive(c, After(c, Front(es)), Last(es));
    }
  }

  // ----- one more vote -----

  function Honest(c: Config): set<nat> {
    set i | 0 <= i < |c.w| && i !in c.bad
  }

  /** Every honest node has finished height h, or is in it and has a block; and those that prevoted at h prevoted p. */
  ghost predicate IsReady(c: Config, g: System, h: nat, p: Pair) {
    && |g.nodes| == |c.w|
    && (forall i :: 0 <= i < |g.nodes| && IsHonest(c, i) ==> IsFinished(g.nodes[i], h) || IsIn(g.nodes[i], h))
    && (forall v :: v in g.prevotes && v.height == h && IsHonest(c, v.index) ==> PairOf(v) == p)
  }

  predicate IsFinished(d: Node, h: nat) {
    |d.log| > h
  }

  predicate IsIn(d: Node, h: nat) {
    d.height == h && d.block.Some?
  }

  lemma FinishedIsPast(d: Node, h: nat)
    requires StepsOk(d) && AtRest(d) && (IsFinished(d, h) || IsIn(d, h))
    ensures IsPast(d, h, PROPOSE)
    ensures IsFinished(d, h) || d.step == PRECOMMIT ==> IsPast(d, h, PREVOTE)
    ensures !IsFinished(d, h) ==> d.height == h && (d.step == PREVOTE || d.step == PRECOMMIT)
  {
  }

  /** A vote set without a majority lacks an honest vote, if all honest votes at hand are for p and weigh a quorum. */
  lemma SomeVoteIsMissing(c: Config, net: set<Vote>, h: nat, t: Tally, p: Pair) returns (v: Vote)
    requires TallyFrom(c, net, h, t) && t.majority.None? && IsQuorum(c.w, Honest(c))
    requires forall v :: v in net && v.height == h && IsHonest(c, v.index) ==> PairOf(v) == p
    requires forall i :: 0 <= i < |c.w| && IsHonest(c, i) ==> HasVote(net, h, i)
    ensures v in net && v.height == h && IsHonest(c, v.index) && v.index !in t.votes
  {
    hide Weight, IsQuorum, Backers;
    if forall i :: 0 <= i < |c.w| && i in Honest(c) ==> i in Backers(t, p) {
      QuorumGrows(c.w, Honest(c), Backers(t, p));
    }
    var i :| 0 <= i < |c.w| && i in Honest(c) && i !in Backers(t, p);
    assert IsHonest(c, i);
    v :| v in net && v.height == h && v.index == i;
    CountedBacks(c, net, h, t, p, i);
  }

  lemma CountedBacks(c: Config, net: set<Vote>, h: nat, t: Tally, p: Pair, i: nat)
    requires TallyFrom(c, net, h, t) && IsHonest(c, i)
    requires forall v :: v in net && v.height == h && IsHonest(c, v.index) ==> PairOf(v) == p
    ensures i in t.votes ==> i in Backers(t, p)
  {
    hide Weight, IsQuorum, Count;
    assert i in t.votes ==> t.votes[i] in net && t.votes[i].height == h && t.votes[i].index == i;
  }

  lemma QuorumGrows(w: seq<nat>, a: set<nat>, b: set<nat>)
    requires IsQuorum(w, a) && forall i :: 0 <= i < |w| && i in a ==> i in b
    ensures IsQuorum(w, b)
  {
    WeightGrows(w, a, b, |w|);
  }

  /** Honest precommits at h are for p, too. */
  lemma PrecommitsAreFor(c: Config, g: System, h: nat, p: Pair, v: Vote)
    requires IsFair(c) && Inv(c, g) && IsReady(c, g, h, p) && v in g.precommits && v.height == h && IsHonest(c, v.index)
    ensures PairOf(v) == p
  {
    hide Supported, NodeOk, OneEach, IsFair;
    assert VotesOk(c, g, v.index, g.nodes[v.index]);
    assert PrecommitOk(c, g.prevotes, g.nodes[v.index], v);
    var i := QuorumHasHonest(c, g.prevotes, h, PairOf(v));
    var u := Vote(h, i, PairOf(v).0, PairOf(v).1);
    assert PairOf(u) == PairOf(v);
  }

  /** Some honest node has not finished. */
  predicate IsBehind(c: Config, g: System, h: nat, i: nat) {
    i < |g.nodes| && IsHonest(c, i) && !IsFinished(g.nodes[i], h)
  }

  lemma NodeFacts(c: Config, g: System, h: nat, p: Pair, i: nat)
    requires Inv(c, g) && Live(c, g) && IsReady(c, g, h, p) && i < |g.nodes| && IsHonest(c, i)
    ensures |g.nodes| == |c.w| && StepsOk(g.nodes[i]) && AtRest(g.nodes[i]) && HasVote(g.prevotes, h, i)
    ensures IsFinished(g.nodes[i], h) || g.nodes[i].step == PRECOMMIT ==> HasVote(g.precommits, h, i)
    ensures !IsFinished(g.nodes[i], h) ==> g.nodes[i].height == h && (g.nodes[i].step == PREVOTE || g.nodes[i].step == PRECOMMIT) && g.nodes[i].block.Some?
    ensures TallyFrom(c, g.prevotes, g.nodes[i].height, g.nodes[i].prevotes) && TallyFrom(c, g.precommits, g.nodes[i].height, g.nodes[i].precommits)
  {
    hide HasVote, AtRest, StepsOk, TallyFrom, VotesOk, OneEach;
    assert NodeOk(c, g, g.nodes[i]);
    FinishedIsPast(g.nodes[i], h);
  }

  /** A vote that a node behind is waiting for. */
  predicate Helps(c: Config, g: System, h: nat, e: Event) {
    && |g.nodes| == |c.w|
    && match e
       case PrevoteArrives(i, v, _) =>
         IsBehind(c, g, h, i) && g.nodes[i].step == PREVOTE && g.nodes[i].height == h && v in g.prevotes && v.height == h && v.index < |c.w| && v.index !in g.nodes[i].prevotes.votes
       case PrecommitArrives(i, v, _) =>
         IsBehind(c, g, h, i) && g.nodes[i].step == PRECOMMIT && g.nodes[i].height == h && v in g.precommits && v.height == h && v.index < |c.w| && v.index !in g.nodes[i].precommits.votes
       case _ => false
  }

  /** If a node is behind, some vote that it does not have yet is on its way to it, or to another node behind. */
  lemma SomeVoteHelps(c: Config, g: System, h: nat, p: Pair, i: nat) returns (e: Event)
    requires IsFair(c) && Inv(c, g) && Live(c, g) && IsReady(c, g, h, p) && IsQuorum(c.w, Honest(c)) && IsBehind(c, g, h, i)
    ensures Helps(c, g, h, e)
  {
    hide Inv, Live, IsFair, HasVote, StepsOk, TallyFrom, IsQuorum, IsFinished;
    assert |g.nodes| == |c.w| by { NodeFacts(c, g, h, p, i); }
    forall j | 0 <= j < |c.w| && IsHonest(c, j) ensures HasVote(g.prevotes, h, j) { NodeFacts(c, g, h, p, j); }
    if k :| 0 <= k < |g.nodes| && IsBehind(c, g, h, k) && g.nodes[k].step == PREVOTE {
      NodeFacts(c, g, h, p, k);
      var v := SomeVoteIsMissing(c, g.prevotes, h, g.nodes[k].prevotes, p);
      e := PrevoteArrives(k, v, p.1);
    } else {
      NodeFacts(c, g, h, p, i);
      forall j | 0 <= j < |c.w| && IsHonest(c, j) ensures HasVote(g.precommits, h, j) {
        NodeFacts(c, g, h, p, j);
        assert !IsBehind(c, g, h, j) || g.nodes[j].step != PREVOTE;
      }
      forall v | v in g.precommits && v.height == h && IsHonest(c, v.index) ensures PairOf(v) == p { PrecommitsAreFor(c, g, h, p, v); }
      var v := SomeVoteIsMissing(c, g.precommits, h, g.nodes[i].precommits, p);
      e := PrecommitArrives(i, v, p.1);
    }
  }

  // ----- a measure of what is missing -----

  /** What a node of n still lacks at height h. */
  function Missing(n: nat, h: nat, d: Node): nat {
    var have := |d.prevotes.votes.Keys| + |d.precommits.votes.Keys|;
    if IsFinished(d, h) then 0 else 1 + if have < 2 * n then 2 * n - have else 0
  }

  function AllMissing(n: nat, h: nat, nodes: seq<Node>): nat {
    if nodes == [] then 0 else AllMissing(n, h, Front(nodes)) + Missing(n, h, Last(nodes))
  }

  lemma {:induction false} OneLacksLess(n: nat, h: nat, nodes: seq<Node>, i: nat, d: Node)
    requires i < |nodes| && Missing(n, h, d) < Missing(n, h, nodes[i])
    ensures AllMissing(n, h, nodes[i := d]) < AllMissing(n, h, nodes)
  {
    hide Missing;
    var (m, ds) := (|nodes| - 1, nodes[i := d]);
    if i == m {
      assert Front(ds) == Front(nodes);
    } else {
      assert Front(ds) == Front(nodes)[i := d];
      OneLacksLess(n, h, Front(nodes), i, d);
    }
  }

  lemma {:induction false} SmallIds(a: set<nat>, n: nat)
    requires forall i :: i in a ==> i < n
    ensures |a| <= n
  {
    if n == 0 {
      assert a == {};
    } else {
      SmallIds(a - {n - 1}, n - 1);
      assert a - {n - 1} == a || |a| == |a - {n - 1}| + 1;
    }
  }

  lemma TallyIsSmall(c: Config, net: set<Vote>, h: nat, t: Tally)
    requires TallyFrom(c, net, h, t)
    ensures |t.votes.Keys| <= |c.w|
  {
    hide Weight, IsQuorum, Backers, Count;
    SmallIds(t.votes.Keys, |c.w|);
  }

  /** More votes, or a finished height, is less missing. */
  lemma MoreIsLess(n: nat, h: nat, d: Node, d': Node)
    requires !IsFinished(d, h)
    requires d.prevotes.votes.Keys <= d'.prevotes.votes.Keys && d.precommits.votes.Keys <= d'.precommits.votes.Keys
    requires d.prevotes.votes.Keys != d'.prevotes.votes.Keys || d.precommits.votes.Keys != d'.precommits.votes.Keys
    requires |d'.prevotes.votes.Keys| <= n && |d'.precommits.votes.Keys| <= n
    ensures Missing(n, h, d') < Missing(n, h, d)
  {
    LargerSet(d.prevotes.votes.Keys, d'.prevotes.votes.Keys);
    LargerSet(d.precommits.votes.Keys, d'.precommits.votes.Keys);
  }

  lemma LargerSet(a: set<nat>, b: set<nat>)
    requires a <= b
    ensures |a| <= |b| && (a != b ==> |a| < |b|)
  {
    SmallerSet(a, b);
    if a != b {
      var x :| x in b && x !in a;
      SmallerSet(a, b - {x});
    }
  }

  // ----- the event helps -----

  /** What the vote leaves before the handler runs. */
  lemma HelpsTakes(c: Config, g: System, h: nat, e: Event)
    requires Helps(c, g, h, e)
    ensures Enabled(c, g, e) && !e.BadPrevote? && !e.BadPrecommit? && !e.GateOpens? && !e.BlockArrives?
    ensures var (d, d1) := (g.nodes[e.i], Taken(c, g, e));
            && Apply(c, g, e) == Handle(c, g, e.i, d1, e.ok) && d1.block == d.block && d1.log == d.log && d1.height == d.height && d1.step == d.step
            && d.prevotes.votes.Keys <= d1.prevotes.votes.Keys && d.precommits.votes.Keys <= d1.precommits.votes.Keys
            && (exists j :: (j in d1.prevotes.votes && j !in d.prevotes.votes) || (j in d1.precommits.votes && j !in d.precommits.votes))
  {
    hide AddVote, Handle;
    var (s, d, d1) := (SeatOf(c, e.i), g.nodes[e.i], Taken(c, g, e));
    match e
    case PrevoteArrives(i, v, _) => AddVoteGrows(d.prevotes, v, s.w[v.index], Total(s.w));
    case PrecommitArrives(i, v, _) => AddVoteGrows(d.precommits, v, s.w[v.index], Total(s.w));
  }

  lemma HelpingHelps(c: Config, g: System, h: nat, p: Pair, e: Event)
    requires IsFair(c) && Inv(c, g) && Live(c, g) && IsReady(c, g, h, p) && Helps(c, g, h, e)
    ensures Enabled(c, g, e) && IsReady(c, Apply(c, g, e), h, p)
    ensures AllMissing(|c.w|, h, Apply(c, g, e).nodes) < AllMissing(|c.w|, h, g.nodes)
  {
    hide Inv, Live, IsFair, Drive, Cast, Taken, Missing, AllMissing, StepsOk, AtRest, HasVote, TallyFrom;
    HelpsTakes(c, g, h, e);
    TakenIsBefore(c, g, e);
    var (i, d, d1, g') := (e.i, g.nodes[e.i], Taken(c, g, e), Apply(c, g, e));
    DriveRests(SeatOf(c, i), d1, e.ok);
    var d' := Drive(SeatOf(c, i), d1, e.ok);
    NodeFacts(c, g, h, p, i);
    assert g'.nodes == g.nodes[i := d'] && g'.prevotes == g.prevotes;
    assert IsReady(c, g', h, p);
    ApplyKeepsInv(c, g, e);
    ApplyKeepsLive(c, g, e);
    NodeFacts(c, g', h, p, i);
    TallyIsSmall(c, g'.prevotes, d'.height, d'.prevotes);
    TallyIsSmall(c, g'.precommits, d'.height, d'.precommits);
    MoreIsLess(|c.w|, h, d, d');
    OneLacksLess(|c.w|, h, g.nodes, i, d');
  }

  ghost predicate AllFinished(c: Config, g: System, h: nat) {
    forall i :: 0 <= i < |g.nodes| && IsHonest(c, i) ==> IsFinished(g.nodes[i], h)
  }

  lemma {:induction false} RunsOn(c: Config, es: seq<Event>, h: nat, p: Pair) returns (es': seq<Event>)
    requires IsFair(c) && IsRun(c, es) && IsQuorum(c.w, Honest(c)) && IsReady(c, After(c, es), h, p)
    ensures es <= es' && IsRun(c, es') && IsReady(c, After(c, es'), h, p) && AllFinished(c, After(c, es'), h)
    decreases AllMissing(|c.w|, h, After(c, es).nodes)
  {
    hide IsFair, IsReady, Inv, Live, IsQuorum, AllMissing, Helps, Apply, Enabled;
    var g := After(c, es);
    if AllFinished(c, g, h) {
      es' := es;
    } else {
      EveryRunIsLive(c, es);
      var i :| 0 <= i < |g.nodes| && IsHonest(c, i) && !IsFinished(g.nodes[i], h);
      var e := SomeVoteHelps(c, g, h, p, i);
      HelpingHelps(c, g, h, p, e);
      var next := es + [e];
      assert Front(next) == es && Last(next) == e;
      es' := RunsOn(c, next, h, p);
    }
  }

  /** Whatever has happened, Byzantine votes included: once every honest node has a block at height h or has finished it,
      and all honest prevotes there are for one pair, the run can go on until every honest node has finished the height
      with that pair, and has executed its block; provided that the honest weight is a quorum. */
  lemma HeightsCanFinish(c: Config, es: seq<Event>, h: nat, p: Pair) returns (es': seq<Event>)
    requires IsFair(c) && IsRun(c, es) && IsQuorum(c.w, Honest(c)) && IsReady(c, After(c, es), h, p)
    ensures es <= es' && IsRun(c, es')
    ensures var g := After(c, es');
            |g.nodes| == |c.w| && forall i :: 0 <= i < |g.nodes| && IsHonest(c, i) ==>
              |g.nodes[i].log| > h && g.nodes[i].log[h].precommits.majority == Some(p) && g.nodes[i].log[h].block == p.0
  {
    hide IsFair, IsRun, After, IsQuorum, Supported, IsReady;
    es' := RunsOn(c, es, h, p);
    var g := After(c, es');
    EveryRunIsLive(c, es');
    assert |g.nodes| == |c.w| by { ReadyNodes(c, g, h, p); }
    forall i | 0 <= i < |g.nodes| && IsHonest(c, i)
      ensures |g.nodes[i].log| > h && g.nodes[i].log[h].precommits.majority == Some(p) && g.nodes[i].log[h].block == p.0
    {
      assert IsFinished(g.nodes[i], h);
      MajoritiesMatch(c, es', i, h);
      SupportedIs(c, g, h, p, g.nodes[i].log[h].precommits.majority.value);
      FinishedBlock(c, g, h, p, i);
    }
  }

  lemma ReadyNodes(c: Config, g: System, h: nat, p: Pair)
    requires IsReady(c, g, h, p)
    ensures |g.nodes| == |c.w|
  {
  }

  lemma SupportedIs(c: Config, g: System, h: nat, p: Pair, q: Pair)
    requires IsFair(c) && IsReady(c, g, h, p) && Supported(c, g.prevotes, h, q)
    ensures q == p
  {
    hide IsFair, Supported;
    var i := QuorumHasHonest(c, g.prevotes, h, q);
    assert PairOf(Vote(h, i, q.0, q.1)) == q;
  }

  lemma FinishedBlock(c: Config, g: System, h: nat, p: Pair, i: nat)
    requires Inv(c, g) && Live(c, g) && IsReady(c, g, h, p) && i < |g.nodes| && IsHonest(c, i) && IsFinished(g.nodes[i], h)
    ensures g.nodes[i].log[h].block == p.0
  {
    hide NodeOk, OneEach, Supported;
    NodeFacts(c, g, h, p, i);
    var v :| v in g.prevotes && v.height == h && v.index == i;
    assert VotesOk(c, g, i, g.nodes[i]);
    assert PrevoteOk(g.nodes[i], v) && PairOf(v) == p;
  }
}
