/** All validators of a shard over an asynchronous network, some of them Byzantine: runs, and agreement. */
module PyramidRun {
  import opened Bytes
  import opened PyramidVotes
  import opened PyramidNode

  /** bad are the Byzantine validators. */
  datatype Config = Config(w: seq<nat>, bad: set<nat>)

  /** Every vote that was ever signed; any of them may arrive at any node, at any time and more than once. */
  datatype System = System(nodes: seq<Node>, prevotes: set<Vote>, precommits: set<Vote>)

  datatype Event =
    | BlockArrives(i: nat, hash: Bytes, ok: bool)
    | PrevoteArrives(i: nat, v: Vote, ok: bool)
    | PrecommitArrives(i: nat, v: Vote, ok: bool)
    | BadPrevote(v: Vote)
    | BadPrecommit(v: Vote)
    | GateOpens(i: nat)

  predicate IsFair(c: Config) {
    Total(c.w) < LIMIT && IsMinority(c.w, c.bad)
  }

  predicate IsHonest(c: Config, i: nat) {
    i < |c.w| && i !in c.bad
  }

  function SeatOf(c: Config, i: nat): Seat {
    Seat(c.w, i)
  }

  function Put(g: System, i: nat, d: Node, out: Out): System
    requires i < |g.nodes|
  {
    System(g.nodes[i := d], g.prevotes + out.prevotes, g.precommits + out.precommits)
  }

  predicate Enabled(c: Config, g: System, e: Event) {
    && |g.nodes| == |c.w|
    && match e
       case BlockArrives(i, _, _) => IsHonest(c, i)
       case PrevoteArrives(i, v, _) => IsHonest(c, i) && v in g.prevotes
       case PrecommitArrives(i, v, _) => IsHonest(c, i) && v in g.precommits
       case BadPrevote(v) => v.index in c.bad && v.index < |c.w|
       case BadPrecommit(v) => v.index in c.bad && v.index < |c.w|
       case GateOpens(i) => IsHonest(c, i) && g.nodes[i].step == COMMIT
  }

  /** The handler after node i changed to d. */
  function Handle(c: Config, g: System, i: nat, d: Node, ok: bool): System
    requires i < |g.nodes| == |c.w|
  {
    Put(g, i, Drive(SeatOf(c, i), d, ok), Cast(SeatOf(c, i), d, ok))
  }

  function Apply(c: Config, g: System, e: Event): System
    requires Enabled(c, g, e)
  {
    match e
    case BlockArrives(i, hash, ok) => Handle(c, g, i, TakeBlock(g.nodes[i], hash), ok)
    case PrevoteArrives(i, v, ok) =>
      if !Counts(SeatOf(c, i), g.nodes[i], v) || IsAmbiguous(g.nodes[i].prevotes, v) then g
      else Handle(c, g, i, TakePrevote(SeatOf(c, i), g.nodes[i], v), ok)
    case PrecommitArrives(i, v, ok) =>
      if !Counts(SeatOf(c, i), g.nodes[i], v) || IsAmbiguous(g.nodes[i].precommits, v) then g
      else Handle(c, g, i, TakePrecommit(SeatOf(c, i), g.nodes[i], v), ok)
    case BadPrevote(v) => g.(prevotes := g.prevotes + {v})
    case BadPrecommit(v) => g.(precommits := g.precommits + {v})
    case GateOpens(i) => Put(g, i, NewHeight(g.nodes[i]), SILENT)
  }

  function Init(c: Config): System {
    System(seq(|c.w|, i => START), {}, {})
  }

  /** Every event was possible when it happened. */
  predicate IsRun(c: Config, es: seq<Event>)
    decreases |es|, 0
  {
    es == [] || (IsRun(c, Front(es)) && Enabled(c, After(c, Front(es)), Last(es)))
  }

  function After(c: Config, es: seq<Event>): System
    requires IsRun(c, es)
    decreases |es|, 1
  {
    if es == [] then Init(c) else Apply(c, After(c, Front(es)), Last(es))
  }

  // ----- the invariant -----

  function Voters(net: set<Vote>, h: nat, p: Pair): set<nat> {
    set v | v in net && v.height == h && PairOf(v) == p :: v.index
  }

  /** A quorum has signed this pair. */
  predicate Supported(c: Config, net: set<Vote>, h: nat, p: Pair) {
    IsQuorum(c.w, Voters(net, h, p))
  }

  /** A vote set of height h, made of signed votes. */
  ghost predicate TallyFrom(c: Config, net: set<Vote>, h: nat, t: Tally) {
    && IsTally(c.w, t)
    && forall i :: i in t.votes ==> t.votes[i] in net && t.votes[i].height == h
  }

  ghost predicate RecordOk(c: Config, g: System, h: nat, r: Record) {
    && TallyFrom(c, g.prevotes, h, r.prevotes) && TallyFrom(c, g.precommits, h, r.precommits)
    && r.prevotes.majority.Some? && r.precommits.majority.Some?
  }

  predicate StepsOk(d: Node) {
    && PROPOSE <= d.step <= COMMIT
    && d.pass == (if d.step == PROPOSE then NEW_HEIGHT else d.step - 1)
    && (d.step >= PREVOTE ==> d.block.Some?)
    && (d.step >= PRECOMMIT ==> d.prevotes.majority.Some?)
    && (d.step == COMMIT ==> d.precommits.majority.Some?)
    && |d.log| == d.height + (if d.step == COMMIT then 1 else 0)
    && (d.step == COMMIT ==> d.log[d.height].block == d.block.value)
  }

  ghost predicate NodeOk(c: Config, g: System, d: Node) {
    && StepsOk(d)
    && TallyFrom(c, g.prevotes, d.height, d.prevotes) && TallyFrom(c, g.precommits, d.height, d.precommits)
    && forall h :: 0 <= h < |d.log| ==> RecordOk(c, g, h, d.log[h])
  }

  /** The block that a node has at height h. */
  function BlockAt(d: Node, h: nat): Bytes {
    if h < |d.log| then d.log[h].block else if d.block.Some? then d.block.value else []
  }

  /** An honest prevote is for the block at hand, and cast once. */
  predicate PrevoteOk(d: Node, v: Vote) {
    && (v.height < d.height || (v.height == d.height && d.step >= PREVOTE))
    && v.hash == BlockAt(d, v.height)
  }

  /** An honest precommit repeats what a quorum prevoted. */
  predicate PrecommitOk(c: Config, prevotes: set<Vote>, d: Node, v: Vote) {
    && (v.height < d.height || (v.height == d.height && d.step >= PRECOMMIT))
    && Supported(c, prevotes, v.height, PairOf(v))
  }

  ghost predicate OneEach(c: Config, net: set<Vote>) {
    forall v, v' :: v in net && v' in net && v.index == v'.index && v.height == v'.height && IsHonest(c, v.index) ==> v == v'
  }

  ghost predicate VotesOk(c: Config, g: System, i: nat, d: Node) {
    && (forall v :: v in g.prevotes && v.index == i ==> PrevoteOk(d, v))
    && (forall v :: v in g.precommits && v.index == i ==> PrecommitOk(c, g.prevotes, d, v))
  }

  ghost predicate Inv(c: Config, g: System) {
    && |g.nodes| == |c.w|
    && OneEach(c, g.prevotes) && OneEach(c, g.precommits)
    && forall i :: 0 <= i < |g.nodes| && IsHonest(c, i) ==> NodeOk(c, g, g.nodes[i]) && VotesOk(c, g, i, g.nodes[i])
  }

  // ----- votes pile up -----

  ghost predicate Grows(g: System, g': System) {
    g.prevotes <= g'.prevotes && g.precommits <= g'.precommits
  }

  lemma SupportGrows(c: Config, net: set<Vote>, net': set<Vote>, h: nat, p: Pair)
    requires net <= net' && Supported(c, net, h, p)
    ensures Supported(c, net', h, p)
  {
    WeightGrows(c.w, Voters(net, h, p), Voters(net', h, p), |c.w|);
  }

  lemma NodeOkGrows(c: Config, g: System, g': System, d: Node)
    requires Grows(g, g') && NodeOk(c, g, d)
    ensures NodeOk(c, g', d)
  {
    hide IsTally, StepsOk;
    forall h | 0 <= h < |d.log| ensures RecordOk(c, g', h, d.log[h]) {
      assert RecordOk(c, g, h, d.log[h]);
    }
  }

  lemma MajorityIsSupported(c: Config, net: set<Vote>, h: nat, t: Tally)
    requires TallyFrom(c, net, h, t) && t.majority.Some?
    ensures Supported(c, net, h, t.majority.value)
  {
    var p := t.majority.value;
    forall i | 0 <= i < |c.w| && i in Backers(t, p) ensures i in Voters(net, h, p) {
      assert t.votes[i] in net;
    }
    WeightGrows(c.w, Backers(t, p), Voters(net, h, p), |c.w|);
  }

  lemma AddKeepsTallyFrom(c: Config, net: set<Vote>, h: nat, t: Tally, v: Vote)
    requires IsFair(c) && TallyFrom(c, net, h, t) && v in net && v.height == h && v.index < |c.w|
    ensures TallyFrom(c, net, h, AddVote(t, v, c.w[v.index], Total(c.w)))
    ensures t.majority.Some? ==> AddVote(t, v, c.w[v.index], Total(c.w)).majority == t.majority
  {
    hide IsTally, Threshold, Int32;
    AddVoteKeepsTally(c.w, t, v);
  }

  // ----- one node moves -----

  /** Nodes and votes of the others stay in order when node i moves and casts its own votes. */
  lemma OthersKeep(c: Config, g: System, i: nat, d: Node, out: Out)
    requires Inv(c, g) && i < |g.nodes|
    requires forall v :: v in out.prevotes || v in out.precommits ==> v.index == i
    requires var g' := Put(g, i, d, out); OneEach(c, g'.prevotes) && OneEach(c, g'.precommits)
    requires IsHonest(c, i) ==> NodeOk(c, Put(g, i, d, out), d) && VotesOk(c, Put(g, i, d, out), i, d)
    ensures Inv(c, Put(g, i, d, out))
  {
    hide NodeOk, OneEach, Supported, IsHonest;
    var g' := Put(g, i, d, out);
    forall j | 0 <= j < |g.nodes| && IsHonest(c, j) && j != i ensures NodeOk(c, g', g'.nodes[j]) && VotesOk(c, g', j, g'.nodes[j]) {
      NodeOkGrows(c, g, g', g.nodes[j]);
      forall v | v in g'.precommits && v.index == j ensures PrecommitOk(c, g'.prevotes, g.nodes[j], v) {
        assert v in g.precommits && PrecommitOk(c, g.prevotes, g.nodes[j], v);
        SupportGrows(c, g.prevotes, g'.prevotes, v.height, PairOf(v));
      }
    }
  }

  lemma OneMore(c: Config, net: set<Vote>, v: Vote)
    requires OneEach(c, net) && forall u :: u in net && u.index == v.index && IsHonest(c, v.index) ==> u.height != v.height
    ensures OneEach(c, net + {v})
  {
  }

  lemma ProposeKeepsInv(c: Config, g: System, i: nat, ok: bool)
    requires IsFair(c) && Inv(c, g) && IsHonest(c, i) && g.nodes[i].step == PROPOSE && g.nodes[i].block.Some?
    ensures var v := OwnPrevote(SeatOf(c, i), g.nodes[i], ok);
            Inv(c, Put(g, i, DoPropose(SeatOf(c, i), g.nodes[i], ok), Out({v}, {})))
  {
    hide IsTally, AddVote, Supported, RecordOk, OneEach, IsFair;
    var d := g.nodes[i];
    var v := OwnPrevote(SeatOf(c, i), d, ok);
    var d' := DoPropose(SeatOf(c, i), d, ok);
    var g' := Put(g, i, d', Out({v}, {}));
    assert g'.precommits == g.precommits;
    OneMore(c, g.prevotes, v);
    assert OneEach(c, g'.prevotes) && OneEach(c, g'.precommits);
    NodeOkGrows(c, g, g', d);
    AddKeepsTallyFrom(c, g'.prevotes, d.height, d.prevotes, v);
    assert NodeOk(c, g', d');
    forall u | u in g'.precommits && u.index == i ensures PrecommitOk(c, g'.prevotes, d', u) {
      SupportGrows(c, g.prevotes, g'.prevotes, u.height, PairOf(u));
    }
    assert VotesOk(c, g', i, d');
    OthersKeep(c, g, i, d', Out({v}, {}));
  }

  lemma PrevoteKeepsInv(c: Config, g: System, i: nat)
    requires IsFair(c) && Inv(c, g) && IsHonest(c, i) && g.nodes[i].step == PREVOTE && g.nodes[i].prevotes.majority.Some?
    ensures var v := OwnPrecommit(SeatOf(c, i), g.nodes[i]);
            Inv(c, Put(g, i, DoPrevote(SeatOf(c, i), g.nodes[i]), Out({}, {v})))
  {
    hide IsTally, AddVote, Supported, RecordOk, OneEach, IsFair;
    var d := g.nodes[i];
    var v := OwnPrecommit(SeatOf(c, i), d);
    var d' := DoPrevote(SeatOf(c, i), d);
    var g' := Put(g, i, d', Out({}, {v}));
    assert g'.prevotes == g.prevotes;
    OneMore(c, g.precommits, v);
    assert OneEach(c, g'.prevotes) && OneEach(c, g'.precommits);
    NodeOkGrows(c, g, g', d);
    AddKeepsTallyFrom(c, g'.precommits, d.height, d.precommits, v);
    assert NodeOk(c, g', d');
    MajorityIsSupported(c, g.prevotes, d.height, d.prevotes);
    assert VotesOk(c, g', i, d');
    OthersKeep(c, g, i, d', Out({}, {v}));
  }

  lemma PrecommitKeepsInv(c: Config, g: System, i: nat)
    requires IsFair(c) && Inv(c, g) && IsHonest(c, i) && g.nodes[i].step == PRECOMMIT && g.nodes[i].precommits.majority.Some?
    ensures Inv(c, Put(g, i, DoPrecommit(g.nodes[i]), SILENT))
  {
    hide IsTally, Supported, OneEach, IsFair;
    var d := g.nodes[i];
    var d' := DoPrecommit(d);
    var g' := Put(g, i, d', SILENT);
    assert g'.precommits == g.precommits && g'.prevotes == g.prevotes;
    assert RecordOk(c, g', d.height, d'.log[d.height]);
    forall h | 0 <= h < |d'.log| ensures RecordOk(c, g', h, d'.log[h]) {
      if h < |d.log| { assert RecordOk(c, g, h, d.log[h]); }
    }
    assert NodeOk(c, g', d');
    assert VotesOk(c, g', i, d');
    OthersKeep(c, g, i, d', SILENT);
  }

  lemma PutTwice(g: System, i: nat, d: Node, out: Out, d': Node, out': Out)
    requires i < |g.nodes|
    ensures Put(Put(g, i, d, out), i, d', out') == Put(g, i, d', Out(out.prevotes + out'.prevotes, out.precommits + out'.precommits))
  {
  }

  lemma PutSame(g: System, i: nat)
    requires i < |g.nodes|
    ensures Put(g, i, g.nodes[i], SILENT) == g
  {
  }

  lemma StepsOfNode(c: Config, g: System, i: nat)
    requires Inv(c, g) && IsHonest(c, i)
    ensures i < |g.nodes| == |c.w| && StepsOk(g.nodes[i])
  {
  }

  lemma {:induction false} DriveKeepsInv(c: Config, g: System, i: nat, ok: bool)
    requires IsFair(c) && Inv(c, g) && IsHonest(c, i)
    ensures i < |g.nodes| && Inv(c, Put(g, i, Drive(SeatOf(c, i), g.nodes[i], ok), Cast(SeatOf(c, i), g.nodes[i], ok)))
    decreases COMMIT - g.nodes[i].step, 0
  {
    hide Inv, IsFair, AddVote, Put;
    StepsOfNode(c, g, i);
    var s, d := SeatOf(c, i), g.nodes[i];
    if d.step == PROPOSE && d.block.Some? {
      ProposeKeepsInv(c, g, i, ok);
      var (d1, out) := (DoPropose(s, d, ok), Out({OwnPrevote(s, d, ok)}, {}));
      DriveFrom(c, g, i, d1, out, ok);
      assert out.prevotes + Cast(s, d1, ok).prevotes == Cast(s, d, ok).prevotes;
      assert out.precommits + Cast(s, d1, ok).precommits == Cast(s, d, ok).precommits;
    } else if d.step == PREVOTE && d.prevotes.majority.Some? {
      PrevoteKeepsInv(c, g, i);
      var (d1, out) := (DoPrevote(s, d), Out({}, {OwnPrecommit(s, d)}));
      DriveFrom(c, g, i, d1, out, ok);
      assert out.prevotes + Cast(s, d1, ok).prevotes == Cast(s, d, ok).prevotes;
      assert out.precommits + Cast(s, d1, ok).precommits == Cast(s, d, ok).precommits;
    } else if d.step == PRECOMMIT && d.precommits.majority.Some? {
      PrecommitKeepsInv(c, g, i);
      assert Drive(s, d, ok) == DoPrecommit(d) && Cast(s, d, ok) == SILENT;
    } else {
      PutSame(g, i);
    }
  }

  lemma DriveFrom(c: Config, g: System, i: nat, d: Node, out: Out, ok: bool)
    requires IsFair(c) && IsHonest(c, i) && i < |g.nodes| && Inv(c, Put(g, i, d, out)) && d.step > g.nodes[i].step
    ensures var s := SeatOf(c, i);
            Inv(c, Put(g, i, Drive(s, d, ok), Out(out.prevotes + Cast(s, d, ok).prevotes, out.precommits + Cast(s, d, ok).precommits)))
    decreases COMMIT - d.step, 1
  {
    hide Inv, IsFair, Drive, Cast;
    var g1 := Put(g, i, d, out);
    assert g1.nodes[i] == d;
    DriveKeepsInv(c, g1, i, ok);
    PutTwice(g, i, d, out, Drive(SeatOf(c, i), d, ok), Cast(SeatOf(c, i), d, ok));
  }

  // ----- a message arrives -----

  lemma BlockKeepsInv(c: Config, g: System, i: nat, hash: Bytes)
    requires Inv(c, g) && IsHonest(c, i) && i < |g.nodes|
    ensures Inv(c, Put(g, i, TakeBlock(g.nodes[i], hash), SILENT))
  {
    hide IsTally, Supported, OneEach, RecordOk;
    var (d, d') := (g.nodes[i], TakeBlock(g.nodes[i], hash));
    var g' := Put(g, i, d', SILENT);
    assert g'.precommits == g.precommits && g'.prevotes == g.prevotes;
    NodeOkGrows(c, g, g', d);
    assert NodeOk(c, g', d');
    assert VotesOk(c, g', i, d');
    OthersKeep(c, g, i, d', SILENT);
  }

  lemma PrevoteArrivalKeepsInv(c: Config, g: System, i: nat, v: Vote)
    requires IsFair(c) && Inv(c, g) && IsHonest(c, i) && i < |g.nodes| && v in g.prevotes && Counts(SeatOf(c, i), g.nodes[i], v)
    ensures Inv(c, Put(g, i, TakePrevote(SeatOf(c, i), g.nodes[i], v), SILENT))
  {
    hide IsTally, Supported, OneEach, RecordOk, AddVote, IsFair;
    var (d, d') := (g.nodes[i], TakePrevote(SeatOf(c, i), g.nodes[i], v));
    var g' := Put(g, i, d', SILENT);
    assert g'.precommits == g.precommits && g'.prevotes == g.prevotes;
    NodeOkGrows(c, g, g', d);
    AddKeepsTallyFrom(c, g'.prevotes, d.height, d.prevotes, v);
    assert NodeOk(c, g', d');
    assert VotesOk(c, g', i, d');
    OthersKeep(c, g, i, d', SILENT);
  }

  lemma PrecommitArrivalKeepsInv(c: Config, g: System, i: nat, v: Vote)
    requires IsFair(c) && Inv(c, g) && IsHonest(c, i) && i < |g.nodes| && v in g.precommits && Counts(SeatOf(c, i), g.nodes[i], v)
    ensures Inv(c, Put(g, i, TakePrecommit(SeatOf(c, i), g.nodes[i], v), SILENT))
  {
    hide IsTally, Supported, OneEach, RecordOk, AddVote, IsFair;
    var (d, d') := (g.nodes[i], TakePrecommit(SeatOf(c, i), g.nodes[i], v));
    var g' := Put(g, i, d', SILENT);
    assert g'.precommits == g.precommits && g'.prevotes == g.prevotes;
    NodeOkGrows(c, g, g', d);
    AddKeepsTallyFrom(c, g'.precommits, d.height, d.precommits, v);
    assert NodeOk(c, g', d');
    assert VotesOk(c, g', i, d');
    OthersKeep(c, g, i, d', SILENT);
  }

  lemma GateKeepsInv(c: Config, g: System, i: nat)
    requires Inv(c, g) && IsHonest(c, i) && i < |g.nodes| && g.nodes[i].step == COMMIT
    ensures Inv(c, Put(g, i, NewHeight(g.nodes[i]), SILENT))
  {
    hide IsTally, Supported, OneEach, RecordOk;
    var (d, d') := (g.nodes[i], NewHeight(g.nodes[i]));
    var g' := Put(g, i, d', SILENT);
    assert g'.precommits == g.precommits && g'.prevotes == g.prevotes;
    NoVotesIsTally(c.w);
    NodeOkGrows(c, g, g', d);
    assert NodeOk(c, g', d');
    assert VotesOk(c, g', i, d');
    OthersKeep(c, g, i, d', SILENT);
  }

  lemma BadVoteKeepsInv(c: Config, g: System, v: Vote, out: Out)
    requires Inv(c, g) && v.index in c.bad && v.index < |c.w| && (out == Out({v}, {}) || out == Out({}, {v}))
    ensures Inv(c, Put(g, v.index, g.nodes[v.index], out))
  {
    hide NodeOk, VotesOk;
    var g' := Put(g, v.index, g.nodes[v.index], out);
    OneMore(c, g.prevotes, v);
    OneMore(c, g.precommits, v);
    assert g'.prevotes == g.prevotes || g'.prevotes == g.prevotes + {v};
    assert g'.precommits == g.precommits || g'.precommits == g.precommits + {v};
    OthersKeep(c, g, v.index, g.nodes[v.index], out);
  }

  lemma InitKeepsInv(c: Config)
    ensures Inv(c, Init(c))
  {
    hide IsTally;
    NoVotesIsTally(c.w);
  }

  /** A message that makes node i move to d is handled in two parts. */
  lemma HandleKeepsInv(c: Config, g: System, i: nat, d: Node, ok: bool)
    requires IsFair(c) && IsHonest(c, i) && i < |g.nodes| == |c.w| && Inv(c, Put(g, i, d, SILENT))
    ensures Inv(c, Handle(c, g, i, d, ok))
  {
    hide Inv, IsFair, Drive, Cast;
    var g1 := Put(g, i, d, SILENT);
    assert g1.nodes[i] == d;
    DriveKeepsInv(c, g1, i, ok);
    var (s, out) := (SeatOf(c, i), Cast(SeatOf(c, i), d, ok));
    PutTwice(g, i, d, SILENT, Drive(s, d, ok), out);
    assert Out(SILENT.prevotes + out.prevotes, SILENT.precommits + out.precommits) == out;
  }

  lemma ApplyKeepsInv(c: Config, g: System, e: Event)
    requires IsFair(c) && Inv(c, g) && Enabled(c, g, e)
    ensures Inv(c, Apply(c, g, e))
  {
    hide Inv, IsFair, Handle, TakeBlock, TakePrevote, TakePrecommit, NewHeight, IsAmbiguous;
    match e
    case BlockArrives(i, hash, ok) =>
      BlockKeepsInv(c, g, i, hash);
      HandleKeepsInv(c, g, i, TakeBlock(g.nodes[i], hash), ok);
    case PrevoteArrives(i, v, ok) =>
      if Counts(SeatOf(c, i), g.nodes[i], v) {
        PrevoteArrivalKeepsInv(c, g, i, v);
        HandleKeepsInv(c, g, i, TakePrevote(SeatOf(c, i), g.nodes[i], v), ok);
      }
    case PrecommitArrives(i, v, ok) =>
      if Counts(SeatOf(c, i), g.nodes[i], v) {
        PrecommitArrivalKeepsInv(c, g, i, v);
        HandleKeepsInv(c, g, i, TakePrecommit(SeatOf(c, i), g.nodes[i], v), ok);
      }
    case BadPrevote(v) =>
      BadVoteKeepsInv(c, g, v, Out({v}, {}));
      assert Put(g, v.index, g.nodes[v.index], Out({v}, {})) == Apply(c, g, e);
    case BadPrecommit(v) =>
      BadVoteKeepsInv(c, g, v, Out({}, {v}));
      assert Put(g, v.index, g.nodes[v.index], Out({}, {v})) == Apply(c, g, e);
    case GateOpens(i) => GateKeepsInv(c, g, i);
  }

  lemma {:induction false} EveryRunIsInOrder(c: Config, es: seq<Event>)
    requires IsFair(c) && IsRun(c, es)
    ensures Inv(c, After(c, es))
    decreases |es|
  {
    hide Inv, IsFair, Apply, Enabled;
    if es == [] {
      InitKeepsInv(c);
    } else {
      EveryRunIsInOrder(c, Front(es));
      ApplyKeepsInv(c, After(c, Front(es)), Last(es));
    }
  }

  // ----- agreement -----

  lemma SignedBy(net: set<Vote>, h: nat, p: Pair, i: nat)
    requires i in Voters(net, h, p)
    ensures Vote(h, i, p.0, p.1) in net
  {
    var v :| v in net && v.height == h && PairOf(v) == p && v.index == i;
    assert v == Vote(h, i, p.0, p.1);
  }

  /** No two pairs are signed by quorums at one height. */
  lemma OnePairPerHeight(c: Config, net: set<Vote>, h: nat, p: Pair, q: Pair)
    requires IsFair(c) && OneEach(c, net) && Supported(c, net, h, p) && Supported(c, net, h, q)
    ensures p == q
  {
    var i := QuorumsMeet(c.w, Voters(net, h, p), Voters(net, h, q), c.bad);
    SignedBy(net, h, p, i);
    SignedBy(net, h, q, i);
  }

  lemma RecordIsOk(c: Config, g: System, i: nat, h: nat)
    requires Inv(c, g) && IsHonest(c, i) && h < |g.nodes[i].log|
    ensures RecordOk(c, g, h, g.nodes[i].log[h])
  {
  }

  /** Agreement: no two honest nodes finish a height with different precommit majorities. */
  lemma Agreement(c: Config, es: seq<Event>, i: nat, j: nat, h: nat)
    requires IsFair(c) && IsRun(c, es) && IsHonest(c, i) && IsHonest(c, j)
    ensures var g := After(c, es);
            && |g.nodes| == |c.w|
            && (h < |g.nodes[i].log| && h < |g.nodes[j].log| ==>
                  && g.nodes[i].log[h].precommits.majority.Some?
                  && g.nodes[i].log[h].precommits.majority == g.nodes[j].log[h].precommits.majority)
  {
    hide After, IsFair, IsRun, Supported, NodeOk, VotesOk, TallyFrom;
    EveryRunIsInOrder(c, es);
    var g := After(c, es);
    if h < |g.nodes[i].log| && h < |g.nodes[j].log| {
      RecordIsOk(c, g, i, h);
      RecordIsOk(c, g, j, h);
      MajorityIsSupported(c, g.precommits, h, g.nodes[i].log[h].precommits);
      MajorityIsSupported(c, g.precommits, h, g.nodes[j].log[h].precommits);
      OnePairPerHeight(c, g.precommits, h, g.nodes[i].log[h].precommits.majority.value, g.nodes[j].log[h].precommits.majority.value);
    }
  }

  /** In every run, the remembered pass is never ahead of the data: an honest node finishes a step exactly when it
      has the block and the majorities that the step asks for. */
  lemma FinishedIsReal(c: Config, es: seq<Event>, i: nat)
    requires IsFair(c) && IsRun(c, es) && IsHonest(c, i)
    ensures |After(c, es).nodes| == |c.w|
    ensures var d := After(c, es).nodes[i];
            && (FinishesProposal(d) <==> d.block.Some?)
            && (FinishesPrevote(d) <==> d.block.Some? && d.prevotes.majority.Some?)
            && (FinishesPrecommit(d) <==> d.block.Some? && d.prevotes.majority.Some? && d.precommits.majority.Some?)
  {
    hide After, IsFair, IsRun, VotesOk, TallyFrom;
    EveryRunIsInOrder(c, es);
    assert NodeOk(c, After(c, es), After(c, es).nodes[i]);
  }

  lemma QuorumHasHonest(c: Config, net: set<Vote>, h: nat, p: Pair) returns (i: nat)
    requires IsFair(c) && Supported(c, net, h, p)
    ensures IsHonest(c, i) && Vote(h, i, p.0, p.1) in net
  {
    i := QuorumsMeet(c.w, Voters(net, h, p), Voters(net, h, p), c.bad);
    SignedBy(net, h, p, i);
  }

  /** Whatever a quorum precommits, a quorum has prevoted. */
  lemma PrecommitsAreBacked(c: Config, es: seq<Event>, h: nat, p: Pair)
    requires IsFair(c) && IsRun(c, es) && Supported(c, After(c, es).precommits, h, p)
    ensures Supported(c, After(c, es).prevotes, h, p)
  {
    hide After, IsFair, IsRun, Supported, NodeOk;
    EveryRunIsInOrder(c, es);
    var g := After(c, es);
    var i := QuorumHasHonest(c, g.precommits, h, p);
    assert VotesOk(c, g, i, g.nodes[i]);
    assert PrecommitOk(c, g.prevotes, g.nodes[i], Vote(h, i, p.0, p.1));
  }

  /** At a node that finishes a height, the prevote majority it saw is the pair that was precommitted, and
      quorums have signed it in both rounds. */
  lemma MajoritiesMatch(c: Config, es: seq<Event>, i: nat, h: nat)
    requires IsFair(c) && IsRun(c, es) && IsHonest(c, i)
    ensures var g := After(c, es);
            && |g.nodes| == |c.w|
            && (h < |g.nodes[i].log| ==>
                  var r := g.nodes[i].log[h];
                  && r.precommits.majority.Some? && r.prevotes.majority == r.precommits.majority
                  && Supported(c, g.precommits, h, r.precommits.majority.value)
                  && Supported(c, g.prevotes, h, r.precommits.majority.value))
  {
    hide After, IsFair, IsRun, Supported, NodeOk, VotesOk, TallyFrom;
    EveryRunIsInOrder(c, es);
    var g := After(c, es);
    if h < |g.nodes[i].log| {
      RecordIsOk(c, g, i, h);
      var r := g.nodes[i].log[h];
      MajorityIsSupported(c, g.precommits, h, r.precommits);
      MajorityIsSupported(c, g.prevotes, h, r.prevotes);
      PrecommitsAreBacked(c, es, h, r.precommits.majority.value);
      OnePairPerHeight(c, g.prevotes, h, r.prevotes.majority.value, r.precommits.majority.value);
    }
  }

  // ----- which block is executed -----

  /** Every honest node that has a block at height h has this one. */
  predicate OneBlock(c: Config, g: System, h: nat, hash: Bytes) {
    && |g.nodes| == |c.w|
    && forall i :: 0 <= i < |g.nodes| && IsHonest(c, i) && (h < |g.nodes[i].log| || (h == g.nodes[i].height && g.nodes[i].block.Some?)) ==>
         BlockAt(g.nodes[i], h) == hash
  }

  /** Without an equivocating proposer, the block that a node executes is the one that was precommitted. */
  lemma OneBlockOneExecution(c: Config, es: seq<Event>, i: nat, h: nat, hash: Bytes)
    requires IsFair(c) && IsRun(c, es) && IsHonest(c, i) && OneBlock(c, After(c, es), h, hash) && h < |After(c, es).nodes[i].log|
    ensures var r := After(c, es).nodes[i].log[h];
            r.block == hash && r.precommits.majority.Some? && r.precommits.majority.value.0 == hash
  {
    hide After, IsFair, IsRun, Supported, TallyFrom;
    EveryRunIsInOrder(c, es);
    MajoritiesMatch(c, es, i, h);
    var g := After(c, es);
    var p := g.nodes[i].log[h].precommits.majority.value;
    var k := QuorumHasHonest(c, g.prevotes, h, p);
    var v := Vote(h, k, p.0, p.1);
    assert NodeOk(c, g, g.nodes[k]) && VotesOk(c, g, k, g.nodes[k]);
    assert PrevoteOk(g.nodes[k], v);
  }

  /** In general, a node executes the block that was precommitted exactly when its own block is the one it saw a
      quorum prevote, which it could have checked before it precommitted. */
  lemma ExecutesAgreedIff(c: Config, es: seq<Event>, i: nat, h: nat)
    requires IsFair(c) && IsRun(c, es) && IsHonest(c, i)
    ensures var g := After(c, es);
            && |g.nodes| == |c.w|
            && (h < |g.nodes[i].log| ==>
                  var r := g.nodes[i].log[h];
                  && r.prevotes.majority.Some? && r.precommits.majority.Some?
                  && (r.block == r.precommits.majority.value.0 <==> r.block == r.prevotes.majority.value.0))
  {
    hide After, IsFair, IsRun, Supported;
    MajoritiesMatch(c, es, i, h);
  }
}
