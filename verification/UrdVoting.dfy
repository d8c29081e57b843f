/** A leader together with the votes on its block, and its handlers (urd/consensus/state.go, state_transition.go). */
module UrdVoting {
  import opened Bytes
  import opened Merkle
  import opened UrdTypes
  import opened UrdHistory
  import opened UrdPipeline
  import opened UrdLeader
  import opened UrdVotes
  import Lockstep = UrdLockstep

  /** The validators' weights, the leader's index among them, and the aggregation of signatures. */
  datatype Committee = Committee(w: seq<nat>, me: nat, combine: map<nat, Vote> -> (Bytes, Bytes))

  datatype Voting = Voting(l: Leader, ballot: Ballot)

  datatype Arrival = Voted(vote: Vote) | Told(msg: CrossShardMessage)

  /** The leader alone weighs two thirds, rounded down. */
  predicate IsHeavy(k: Committee)
    requires k.me < |k.w|
  {
    k.w[k.me] >= Needed(k.w)
  }

  function Agg(k: Committee, b: Ballot): Option<AggVote> {
    Maj23(k.w, b, k.combine(b.votes).0, k.combine(b.votes).1)
  }

  // ----- the handlers -----

  /** The ballot of the block that doPropose makes, with the proposer's own vote. */
  function OwnBallot(c: Crypto, names: seq<Bytes>, k: Committee, l: Leader, inp: Input): Ballot
    requires l.id < |names| && ProposeIsDefined(|names|, l)
  {
    var hash := BlockHash(c, MakeBlock(c, names, l.id, l.view + 1, l.pool, l.finished, ExecutionOutputs(l, inp), inp));
    Cast(k.w, NewBallot(l.view + 1, hash), OwnVote(k.me, l.view + 1, hash, HashOf(c, FetchBlock(l.pool, 1))))
  }

  function DoPropose(c: Crypto, names: seq<Bytes>, k: Committee, l: Leader, inp: Input): Voting
    requires l.id < |names| && ProposeIsDefined(|names|, l)
  {
    var b := OwnBallot(c, names, k, l, inp);
    Voting(Propose(c, names, l, inp.(ownQuorum := Agg(k, b))), b)
  }

  /** The leader after it has sent its message, if it has a quorum to send it with. */
  function Communicated(c: Crypto, n: nat, l: Leader): Leader
    requires DriveIsDefined(c, n, l)
  {
    if l.step == LeaderVote && l.agg.Some? then Communicate(c, n, l) else l
  }

  /** handle_state_transition: the new state and the packets sent, or nothing if a lookup fails. */
  function Transit(c: Crypto, names: seq<Bytes>, k: Committee, v: Voting, inp: Input): Option<(Voting, set<Packet>)> {
    var n := |names|;
    if v.l.id >= n || !DriveIsDefined(c, n, v.l) then None
    else
      var l := Communicated(c, n, v.l);
      Some((if l.step == LeaderWait && IsComplete(l) then DoPropose(c, names, k, l, inp) else Voting(l, v.ballot),
            Sent(c, n, v.l)))
  }

  /** doMessage */
  function Handle(c: Crypto, names: seq<Bytes>, k: Committee, v: Voting, a: Arrival, inp: Input): Option<(Voting, set<Packet>)> {
    match a
    case Voted(vote) =>
      if !Counts(k.w, v.ballot, vote) then Some((v, {}))
      else
        var b := Cast(k.w, v.ballot, vote);
        Transit(c, names, k, Voting(if v.l.step == LeaderVote then v.l.(agg := Agg(k, b)) else v.l, b), inp)
    case Told(msg) =>
      if Refused(c, |names|, v.l, msg) then Some((v, {})) else Transit(c, names, k, v.(l := Accept(v.l, msg)), inp)
  }

  /** Everything that arrives, in order. */
  function HandleAll(c: Crypto, names: seq<Bytes>, k: Committee, v: Voting, steps: seq<(Arrival, Input)>): Option<(Voting, set<Packet>)> {
    if steps == [] then Some((v, {}))
    else
      var (m, step) := (|steps| - 1, steps[|steps| - 1]);
      match HandleAll(c, names, k, v, steps[..m])
      case None => None
      case Some(before) =>
        match Handle(c, names, k, before.0, step.0, step.1)
        case None => None
        case Some(after) => Some((after.0, before.1 + after.1))
  }

  /** No other leader sends messages in this leader's name. */
  predicate FromOthers(id: nat, steps: seq<(Arrival, Input)>) {
    forall i :: 0 <= i < |steps| ==> IsFromOther(id, steps[i].0)
  }

  predicate IsFromOther(id: nat, a: Arrival) {
    a.Told? ==> a.msg.source != id
  }

  /** Start */
  function Begin(c: Crypto, names: seq<Bytes>, k: Committee, id: nat, inp: Input): Voting
    requires id < |names|
  {
    var v := DoPropose(c, names, k, Fresh(|names|, id), inp);
    v.(l := v.l.(step := LeaderVote))
  }

  function Destinations(packets: set<Packet>): set<nat> {
    set p | p in packets :: p.dest
  }

  // ----- the handlers drive the leader of the runs -----

  /** The input of the runs, with the quorum that the leader's own vote makes if it proposes. */
  function OwnInput(c: Crypto, names: seq<Bytes>, k: Committee, l: Leader, inp: Input): Input
    requires l.id < |names| && DriveIsDefined(c, |names|, l)
  {
    var l' := Communicated(c, |names|, l);
    if l'.step == LeaderWait && IsComplete(l') then inp.(ownQuorum := Agg(k, OwnBallot(c, names, k, l', inp))) else inp
  }

  /** Handling a transition is one step of the leader with that input. */
  lemma TransitIsDrive(c: Crypto, names: seq<Bytes>, k: Committee, v: Voting, inp: Input)
    requires v.l.id < |names| && DriveIsDefined(c, |names|, v.l)
    ensures var r := Transit(c, names, k, v, inp);
            && r.Some? && r.value.1 == Sent(c, |names|, v.l)
            && r.value.0.l == Drive(c, names, v.l, OwnInput(c, names, k, v.l, inp))
  {
    hide Propose, Communicate, CommunicateIsDefined, ProposeIsDefined, IsComplete, OwnBallot, Agg;
    if v.l.step == LeaderVote && v.l.agg.Some? { CommunicateWaits(c, |names|, v.l); }
  }

  lemma CommunicateWaits(c: Crypto, n: nat, l: Leader)
    requires DriveIsDefined(c, n, l) && l.step == LeaderVote && l.agg.Some?
    ensures Communicate(c, n, l).step == LeaderWait && Communicate(c, n, l).id == l.id
  {
  }

  /** The ballot is the one on the last block of the leader's chain. */
  ghost predicate IsOnLastBlock(c: Crypto, k: Committee, v: Voting) {
    && v.l.view >= 1 && |v.l.history.chain| == v.l.view && IsBallot(k.w, v.ballot) && v.ballot.votes != map[]
    && v.ballot.hash == HashAt(c, v.l.history, v.l.view)
  }

  /** A quorum of votes that name the block before is a vote that the runs of the shards allow. */
  lemma QuorumFits(c: Crypto, k: Committee, v: Voting)
    requires IsOnLastBlock(c, k, v) && Agg(k, v.ballot).Some?
    requires forall i :: i in v.ballot.votes ==> v.ballot.votes[i].data == [HashAt(c, v.l.history, v.l.view - 1)]
    ensures Lockstep.VoteFits(c, v.l, Agg(k, v.ballot).value)
  {
    hide HashAt, IsBallot;
    AggregatedCarries(k.w, v.ballot, HashAt(c, v.l.history, v.l.view - 1), k.combine(v.ballot.votes).0, k.combine(v.ballot.votes).1);
  }
}
