/** The votes that a leader counts are on its last block and name the block before it, from Start on
    (urd/consensus/state_transition.go, core/hotstuff/height_datas.go). */
module UrdBallots {
  import opened Bytes
  import opened Merkle
  import opened UrdTypes
  import opened UrdHistory
  import opened UrdPipeline
  import opened UrdLeader
  import opened UrdVotes
  import opened UrdVoting
  import Lockstep = UrdLockstep

  /** The leader's own vote, and every other one, accept or reject its last block and name the one before. */
  ghost predicate VotesAreOnLast(c: Crypto, k: Committee, v: Voting) {
    && v.l.view >= 1 && |v.l.history.chain| == v.l.view && IsOnLastBlock(c, k, v) && v.ballot.view == v.l.view && v.ballot.round == 0
    && k.me in v.ballot.votes
    && v.ballot.votes[k.me] == Vote(k.me, v.l.view, 0, HashAt(c, v.l.history, v.l.view), true, [HashAt(c, v.l.history, v.l.view - 1)])
    && forall i :: i in v.ballot.votes ==> v.ballot.votes[i].data == [HashAt(c, v.l.history, v.l.view - 1)]
  }

  /** And the quorum that the leader goes by is one that the runs allow. */
  ghost predicate BallotOk(c: Crypto, k: Committee, v: Voting) {
    && VotesAreOnLast(c, k, v) && v.l.pool == Window(v.l.history.chain)
    && (v.l.agg.Some? ==> Lockstep.VoteFits(c, v.l, v.l.agg.value))
  }

  lemma FetchIsAt(c: Crypto, l: Leader, back: nat)
    requires 1 <= back <= 2 && l.pool == Window(l.history.chain)
    ensures HashOf(c, FetchBlock(l.pool, back)) == if back <= |l.history.chain| then HashAt(c, l.history, |l.history.chain| - back + 1) else []
  {
    hide BlockHash;
    if back <= |l.history.chain| { FetchFromWindow(l.history.chain, back); }
  }

  lemma ProposeBallot(c: Crypto, names: seq<Bytes>, k: Committee, l: Leader, inp: Input)
    requires l.id < |names| && ProposeIsDefined(|names|, l) && k.me < |k.w|
    requires |l.history.chain| == l.view && l.pool == Window(l.history.chain)
    ensures BallotOk(c, k, DoPropose(c, names, k, l, inp))
  {
    hide MakeBlock, BlockHash, IsBallot, IsQuorum, Agg, FetchBlock, Window, AppendBlock, HashOf, ExecutionOutputs, ExecutedAfter;
    var b := NextBlock(c, names, l, inp);
    var v := DoPropose(c, names, k, l, inp);
    QuorumIsNotInBlock(c, names, l, inp, v.l.agg);
    WindowOfAppend(l.history.chain, b);
    FetchIsAt(c, l, 1);
    var (new0, own) := (NewBallot(l.view + 1, BlockHash(c, b)), OwnVote(k.me, l.view + 1, BlockHash(c, b), HashOf(c, FetchBlock(l.pool, 1))));
    NewIsBallot(k.w, l.view + 1, BlockHash(c, b));
    CastKeepsBallot(k.w, new0, own);
    assert v.ballot == Cast(k.w, new0, own) && v.ballot.votes == map[k.me := own];
    assert v.l.history.chain == l.history.chain + [b];
    assert HashAt(c, v.l.history, l.view + 1) == BlockHash(c, b);
    assert HashAt(c, v.l.history, l.view) == HashAt(c, l.history, l.view);
    assert VotesAreOnLast(c, k, v);
    if v.l.agg.Some? { QuorumFits(c, k, v); }
  }

  lemma SameBallot(c: Crypto, k: Committee, v: Voting, l: Leader)
    requires BallotOk(c, k, v) && l.view == v.l.view && l.pool == v.l.pool && l.agg == v.l.agg && l.history == v.l.history.(votes := l.history.votes)
    ensures BallotOk(c, k, v.(l := l))
  {
    hide IsBallot, BlockHash, Window;
    assert HashAt(c, l.history, l.view) == HashAt(c, v.l.history, l.view) && HashAt(c, l.history, l.view - 1) == HashAt(c, v.l.history, l.view - 1);
  }

  lemma TransitBallot(c: Crypto, names: seq<Bytes>, k: Committee, v: Voting, inp: Input)
    requires BallotOk(c, k, v) && k.me < |k.w|
    ensures Transit(c, names, k, v, inp).Some? ==> BallotOk(c, k, Transit(c, names, k, v, inp).value.0)
  {
    hide BallotOk, IsComplete, ProposeIsDefined, DoPropose, MakeMessage, Redo, MessageIsDefined;
    if v.l.id < |names| && DriveIsDefined(c, |names|, v.l) {
      var l := Communicated(c, |names|, v.l);
      assert l.view == v.l.view && l.pool == v.l.pool && l.agg == v.l.agg && l.id == v.l.id && l.history == v.l.history.(votes := l.history.votes) by {
        RedoIsLocal(v.l);
      }
      SameBallot(c, k, v, l);
      if l.step == LeaderWait && IsComplete(l) {
        assert |l.history.chain| == l.view && l.pool == Window(l.history.chain) by { BallotShape(c, k, v.(l := l)); }
        ProposeBallot(c, names, k, l, inp);
      }
    }
  }

  lemma BallotShape(c: Crypto, k: Committee, v: Voting)
    requires BallotOk(c, k, v)
    ensures |v.l.history.chain| == v.l.view >= 1 && v.l.pool == Window(v.l.history.chain)
  {
  }

  /** A vote of a validator that has the leader's chain: it names the block before the last. */
  predicate IsInformed(c: Crypto, l: Leader, a: Arrival) {
    a.Voted? ==> a.vote.data == [HashOf(c, FetchBlock(l.pool, 2))]
  }

  lemma CastBallot(c: Crypto, k: Committee, v: Voting, vote: Vote)
    requires BallotOk(c, k, v) && IsInformed(c, v.l, Voted(vote)) && Counts(k.w, v.ballot, vote)
    ensures var b := Cast(k.w, v.ballot, vote);
            && BallotOk(c, k, Voting(v.l, b)) && BallotOk(c, k, Voting(v.l.(agg := Agg(k, b)), b))
  {
    hide IsBallot, BlockHash, Window, FetchBlock, HashAt, IsQuorum, Agg, HashOf;
    CastKeepsBallot(k.w, v.ballot, vote);
    FetchIsAt(c, v.l, 2);
    assert [] == HashAt(c, v.l.history, 0) by { NothingAt(c, v.l.history); }
    var b := Cast(k.w, v.ballot, vote);
    assert VotesAreOnLast(c, k, Voting(v.l, b));
    if Agg(k, b).Some? { QuorumFits(c, k, Voting(v.l, b)); }
  }

  lemma NothingAt(c: Crypto, h: History)
    ensures HashAt(c, h, 0) == []
  {
  }

  lemma HandleBallot(c: Crypto, names: seq<Bytes>, k: Committee, v: Voting, a: Arrival, inp: Input)
    requires BallotOk(c, k, v) && k.me < |k.w| && IsInformed(c, v.l, a)
    ensures Handle(c, names, k, v, a, inp).Some? ==> BallotOk(c, k, Handle(c, names, k, v, a, inp).value.0)
  {
    hide BallotOk, Transit, Cast, Counts, Agg, Refused, IsInformed;
    match a {
      case Voted(vote) =>
        if Counts(k.w, v.ballot, vote) {
          CastBallot(c, k, v, vote);
          var b := Cast(k.w, v.ballot, vote);
          TransitBallot(c, names, k, Voting(if v.l.step == LeaderVote then v.l.(agg := Agg(k, b)) else v.l, b), inp);
        }
      case Told(m) =>
        SameBallot(c, k, v, Accept(v.l, m));
        TransitBallot(c, names, k, v.(l := Accept(v.l, m)), inp);
    }
  }

  /** Every vote that arrives names the block before the one it is on. */
  predicate AreInformed(c: Crypto, names: seq<Bytes>, k: Committee, v: Voting, steps: seq<(Arrival, Input)>) {
    steps == [] ||
    (AreInformed(c, names, k, v, Front(steps)) &&
     (HandleAll(c, names, k, v, Front(steps)).Some? ==> IsInformed(c, HandleAll(c, names, k, v, Front(steps)).value.0.l, Last(steps).0)))
  }

  lemma BeginBallot(c: Crypto, names: seq<Bytes>, k: Committee, id: nat, inp: Input)
    requires id < |names| && k.me < |k.w|
    ensures BallotOk(c, k, Begin(c, names, k, id, inp))
  {
    hide IsBallot, BlockHash, DoPropose, Window;
    assert Window([]) == [] by { NoWindow(); }
    ProposeBallot(c, names, k, Fresh(|names|, id), inp);
    var v := DoPropose(c, names, k, Fresh(|names|, id), inp);
    SameBallot(c, k, v, v.l.(step := LeaderVote));
  }

  lemma NoWindow()
    ensures Window([]) == []
  {
  }

  /** Whatever messages and informed votes arrive after Start, the leader's votes are on its last block and name the one
      before, its own vote among them, and the quorum it goes by is one that the runs of all leaders allow. */
  lemma {:induction false} QuorumsAlwaysFit(c: Crypto, names: seq<Bytes>, k: Committee, id: nat, inp: Input, steps: seq<(Arrival, Input)>)
    requires id < |names| && k.me < |k.w| && AreInformed(c, names, k, Begin(c, names, k, id, inp), steps)
    ensures var r := HandleAll(c, names, k, Begin(c, names, k, id, inp), steps);
            r.Some? ==> BallotOk(c, k, r.value.0)
  {
    hide Begin, Handle, BallotOk, IsInformed;
    if steps == [] {
      BeginBallot(c, names, k, id, inp);
    } else {
      var v := Begin(c, names, k, id, inp);
      QuorumsAlwaysFit(c, names, k, id, inp, Front(steps));
      assert Front(steps) == steps[..|steps| - 1];
      if HandleAll(c, names, k, v, Front(steps)).Some? {
        HandleBallot(c, names, k, HandleAll(c, names, k, v, Front(steps)).value.0, Last(steps).0, Last(steps).1);
      }
    }
  }
}
