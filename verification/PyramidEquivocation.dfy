/** A run in which an honest node executes a block that was not precommitted: the proposer is Byzantine and sends two
    blocks (pyramid/consensus/main.go). */
module PyramidEquivocation {
  import opened Bytes
  import opened PyramidVotes
  import opened PyramidNode
  import opened PyramidRun

  /** Validator 1 is Byzantine; it is the proposer of the first height, which the source numbers 1. */
  const SHARD: Config := Config([3, 1, 1], {1})

  const FIRST_HEIGHT: nat := 1

  /** calculateProposer, in round 0. */
  function Proposer(c: Config, height: nat): nat
    requires c.w != []
  {
    (height + FIRST_HEIGHT) % |c.w|
  }

  lemma ShardIsFair()
    ensures IsFair(SHARD) && Total(SHARD.w) == 5 && Proposer(SHARD, 0) in SHARD.bad
  {
    var w := SHARD.w;
    assert w[..2] == [3, 1] && w[..2][..1] == [3] && w[..2][..1][..0] == [];
    assert Total([3]) == 3 && Total([3, 1]) == 4;
    assert WeightBelow(w, {1}, 1) == 0 && WeightBelow(w, {1}, 2) == 1;
  }

  /** Adding a first vote, without the 32-bit arithmetic. */
  lemma AddsUp(t: Tally, v: Vote, weight: nat, total: nat)
    requires v.index !in t.votes && 0 <= Count(t, PairOf(v)) && Count(t, PairOf(v)) + weight < LIMIT && total < LIMIT
    ensures var t' := AddVote(t, v, weight, total);
            && t'.votes == t.votes[v.index := v]
            && Count(t', PairOf(v)) == Count(t, PairOf(v)) + weight
            && (forall p :: p != PairOf(v) ==> Count(t', p) == Count(t, p))
            && t'.majority == if t.majority.None? && 3 * Count(t', PairOf(v)) > 2 * total then Some(PairOf(v)) else t.majority
  {
    Int32IsIdentity(Count(t, PairOf(v)) + weight);
    Int32IsIdentity(2 * total);
  }

  lemma NoCounts()
    ensures forall p :: Count(NO_VOTES, p) == 0
  {
  }

  /** The weight of validator i in the shard. */
  lemma Weights()
    ensures Total(SHARD.w) == 5 && SHARD.w[0] == 3 && SHARD.w[1] == 1 && SHARD.w[2] == 1
  {
    ShardIsFair();
  }

  function S(i: nat): Seat {
    SeatOf(SHARD, i)
  }

  function For(i: nat, hash: Bytes): Vote {
    Vote(0, i, hash, true)
  }

  // ----- node 0, which was sent block a -----

  function Voted0(a: Bytes): Node {
    DoPropose(S(0), TakeBlock(START, a), true)
  }

  function Agreed0(a: Bytes): Node {
    DoPrevote(S(0), TakePrevote(S(0), Voted0(a), For(1, a)))
  }

  lemma Node0Votes(a: Bytes)
    ensures Drive(S(0), TakeBlock(START, a), true) == Voted0(a)
    ensures Cast(S(0), TakeBlock(START, a), true) == Out({For(0, a)}, {})
    ensures Voted0(a).step == PREVOTE && Voted0(a).height == 0 && Voted0(a).pass == PROPOSE && Voted0(a).precommits == NO_VOTES
    ensures var t := Voted0(a).prevotes;
            t.votes.Keys == {0} && Count(t, (a, true)) == 3 && t.majority == None
  {
    hide AddVote, Total, Threshold, Count;
    Weights();
    NoCounts();
    AddsUp(NO_VOTES, For(0, a), 3, 5);
    assert Voted0(a).prevotes.majority == None;
    assert Drive(S(0), TakeBlock(START, a), true) == Drive(S(0), Voted0(a), true) == Voted0(a);
    assert Cast(S(0), Voted0(a), true) == SILENT;
  }

  lemma Node0Agrees(a: Bytes)
    ensures var d := TakePrevote(S(0), Voted0(a), For(1, a));
            && Drive(S(0), d, true) == Agreed0(a)
            && Cast(S(0), d, true) == Out({}, {For(0, a)})
  {
    hide AddVote, Total, Threshold, Count, Voted0;
    Weights();
    NoCounts();
    Node0Votes(a);
    AddsUp(Voted0(a).prevotes, For(1, a), 1, 5);
    var d := TakePrevote(S(0), Voted0(a), For(1, a));
    assert d.prevotes.majority == Some((a, true));
    AddsUp(NO_VOTES, For(0, a), 3, 5);
    assert Agreed0(a).precommits.majority == None;
    assert Drive(S(0), d, true) == Drive(S(0), Agreed0(a), true) == Agreed0(a);
  }

  // ----- node 2, which was sent block b -----

  function Voted2(b: Bytes): Node {
    DoPropose(S(2), TakeBlock(START, b), true)
  }

  function Heard2(a: Bytes, b: Bytes): Node {
    TakePrevote(S(2), Voted2(b), For(0, a))
  }

  function Agreed2(a: Bytes, b: Bytes): Node {
    DoPrevote(S(2), TakePrevote(S(2), Heard2(a, b), For(1, a)))
  }

  function Done2(a: Bytes, b: Bytes): Node {
    DoPrecommit(TakePrecommit(S(2), Agreed2(a, b), For(0, a)))
  }

  lemma Node2Votes(a: Bytes, b: Bytes)
    requires a != b
    ensures Drive(S(2), TakeBlock(START, b), true) == Voted2(b)
    ensures Cast(S(2), TakeBlock(START, b), true) == Out({For(2, b)}, {})
    ensures Voted2(b).step == PREVOTE && Voted2(b).height == 0 && Voted2(b).pass == PROPOSE && Voted2(b).precommits == NO_VOTES
    ensures Voted2(b).block == Some(b) && Voted2(b).log == []
    ensures var t := Voted2(b).prevotes;
            t.votes.Keys == {2} && Count(t, (a, true)) == 0 && t.majority == None
  {
    hide AddVote, Total, Threshold, Count;
    Weights();
    NoCounts();
    AddsUp(NO_VOTES, For(2, b), 1, 5);
    assert Voted2(b).prevotes.majority == None;
    assert Drive(S(2), TakeBlock(START, b), true) == Drive(S(2), Voted2(b), true) == Voted2(b);
    assert Cast(S(2), Voted2(b), true) == SILENT;
  }

  lemma Node2Hears(a: Bytes, b: Bytes)
    requires a != b
    ensures Counts(S(2), Voted2(b), For(0, a)) && TakePrevote(S(2), Voted2(b), For(0, a)) == Heard2(a, b)
    ensures var d := Heard2(a, b);
            && Drive(S(2), d, true) == d && Cast(S(2), d, true) == SILENT
            && d.step == PREVOTE && d.height == 0 && d.pass == PROPOSE && d.precommits == NO_VOTES && d.block == Some(b) && d.log == []
            && d.prevotes.votes.Keys == {0, 2} && Count(d.prevotes, (a, true)) == 3 && d.prevotes.majority == None
  {
    hide AddVote, Total, Threshold, Count, Voted2;
    Weights();
    Node2Votes(a, b);
    AddsUp(Voted2(b).prevotes, For(0, a), 3, 5);
  }

  lemma Node2Agrees(a: Bytes, b: Bytes)
    requires a != b
    ensures var d := TakePrevote(S(2), Heard2(a, b), For(1, a));
            Drive(S(2), d, true) == Agreed2(a, b) && Cast(S(2), d, true) == Out({}, {For(2, a)})
    ensures var d := Agreed2(a, b);
            && d.step == PRECOMMIT && d.height == 0 && d.pass == PREVOTE && d.block == Some(b) && d.log == []
            && d.precommits.votes.Keys == {2} && Count(d.precommits, (a, true)) == 1 && d.precommits.majority == None
  {
    hide AddVote, Total, Threshold, Count, Heard2;
    Weights();
    NoCounts();
    Node2Hears(a, b);
    AddsUp(Heard2(a, b).prevotes, For(1, a), 1, 5);
    var d := TakePrevote(S(2), Heard2(a, b), For(1, a));
    assert d.prevotes.majority == Some((a, true));
    AddsUp(NO_VOTES, For(2, a), 1, 5);
    assert Agreed2(a, b).precommits.majority == None;
    assert Drive(S(2), d, true) == Drive(S(2), Agreed2(a, b), true) == Agreed2(a, b);
  }

  lemma Node2Executes(a: Bytes, b: Bytes)
    requires a != b
    ensures var d := TakePrecommit(S(2), Agreed2(a, b), For(0, a));
            Drive(S(2), d, true) == Done2(a, b) && Cast(S(2), d, true) == SILENT
    ensures var d := Done2(a, b);
            |d.log| == 1 && d.log[0].block == b && d.log[0].precommits.majority == Some((a, true))
  {
    hide AddVote, Total, Threshold, Count, Agreed2;
    Weights();
    Node2Agrees(a, b);
    AddsUp(Agreed2(a, b).precommits, For(0, a), 3, 5);
    var d := TakePrecommit(S(2), Agreed2(a, b), For(0, a));
    assert d.precommits.majority == Some((a, true));
    assert Drive(S(2), d, true) == Drive(S(2), Done2(a, b), true) == Done2(a, b);
  }

  // ----- the run -----

  function Events(a: Bytes, b: Bytes): seq<Event> {
    [BlockArrives(0, a, true), BadPrevote(For(1, a)), BlockArrives(2, b, true), PrevoteArrives(0, For(1, a), true),
     PrevoteArrives(2, For(0, a), true), PrevoteArrives(2, For(1, a), true), PrecommitArrives(2, For(0, a), true)]
  }

  /** The system after the first k events. */
  function At(a: Bytes, b: Bytes, k: nat): System {
    System([if k < 1 then START else if k < 4 then Voted0(a) else Agreed0(a),
            START,
            if k < 3 then START else if k < 5 then Voted2(b) else if k < 6 then Heard2(a, b)
            else if k < 7 then Agreed2(a, b) else Done2(a, b)],
           (if k < 1 then {} else {For(0, a)}) + (if k < 2 then {} else {For(1, a)}) + (if k < 3 then {} else {For(2, b)}),
           (if k < 4 then {} else {For(0, a)}) + (if k < 6 then {} else {For(2, a)}))
  }

  /** Each event can happen where it does, and leads on. */
  lemma NextEvent(a: Bytes, b: Bytes, k: nat)
    requires a != b && k < 7
    ensures Enabled(SHARD, At(a, b, k), Events(a, b)[k])
    ensures Apply(SHARD, At(a, b, k), Events(a, b)[k]) == At(a, b, k + 1)
  {
    hide Drive, Cast, AddVote, Voted0, Agreed0, Voted2, Heard2, Agreed2, Done2, Total, DoPropose, DoPrevote, DoPrecommit;
    Node0Votes(a);
    Node0Agrees(a);
    Node2Votes(a, b);
    Node2Hears(a, b);
    Node2Agrees(a, b);
    Node2Executes(a, b);
    match k
    case 0 => assert Apply(SHARD, At(a, b, 0), Events(a, b)[0]) == At(a, b, 1);
    case 1 => assert Apply(SHARD, At(a, b, 1), Events(a, b)[1]) == At(a, b, 2);
    case 2 => assert Apply(SHARD, At(a, b, 2), Events(a, b)[2]) == At(a, b, 3);
    case 3 => assert Apply(SHARD, At(a, b, 3), Events(a, b)[3]) == At(a, b, 4);
    case 4 => assert Apply(SHARD, At(a, b, 4), Events(a, b)[4]) == At(a, b, 5);
    case 5 => assert Apply(SHARD, At(a, b, 5), Events(a, b)[5]) == At(a, b, 6);
    case 6 => assert Apply(SHARD, At(a, b, 6), Events(a, b)[6]) == At(a, b, 7);
  }

  lemma {:induction false} RunSoFar(a: Bytes, b: Bytes, k: nat)
    requires a != b && k <= 7
    ensures IsRun(SHARD, Events(a, b)[..k]) && After(SHARD, Events(a, b)[..k]) == At(a, b, k)
  {
    hide Apply, Enabled, At, Events;
    var es := Events(a, b);
    assert |es| == 7 by { EventCount(a, b); }
    if k == 0 {
      assert Init(SHARD) == At(a, b, 0) by { StartsAt(a, b); }
    } else {
      RunSoFar(a, b, k - 1);
      NextEvent(a, b, k - 1);
      assert Front(es[..k]) == es[..k - 1] && Last(es[..k]) == es[k - 1];
    }
  }

  lemma EventCount(a: Bytes, b: Bytes)
    ensures |Events(a, b)| == 7
  {
  }

  lemma StartsAt(a: Bytes, b: Bytes)
    ensures Init(SHARD) == At(a, b, 0)
  {
    assert Init(SHARD).nodes == At(a, b, 0).nodes;
  }

  /** Whatever the two blocks are, the shard has this run: its proposer is Byzantine and weighs less than a third, node 2
      is honest, and it executes b at a height for which a was precommitted. */
  lemma ExecutedMayDiffer(a: Bytes, b: Bytes)
    requires a != b
    ensures IsFair(SHARD) && Proposer(SHARD, 0) in SHARD.bad && IsHonest(SHARD, 2)
    ensures IsRun(SHARD, Events(a, b))
    ensures var d := After(SHARD, Events(a, b)).nodes[2];
            |d.log| == 1 && d.log[0].block == b && d.log[0].precommits.majority == Some((a, true))
  {
    hide Events, Done2;
    ShardIsFair();
    RunSoFar(a, b, 7);
    assert Events(a, b)[..7] == Events(a, b) by { EventCount(a, b); }
    Node2Executes(a, b);
  }
}
