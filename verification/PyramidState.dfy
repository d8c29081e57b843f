/** The validator as the program runs it (pyramid/consensus/main.go, height_datas.go). */
module PyramidState {
  import opened Bytes
  import opened PyramidVotes
  import opened PyramidVoteSet
  import opened PyramidNode

  class ConsensusState {
    const seat: Seat
    var height: nat
    var step: nat
    var pass: nat
    var block: Option<Bytes>
    var prevotes: VoteSet
    var precommits: VoteSet
    var out: Out
    ghost var log: seq<Record>

    ghost predicate Fits(s: VoteSet)
      reads s, s.votes
    {
      s.Valid() && s.validators == |seat.w| && s.total == Total(seat.w)
    }

    ghost predicate Valid()
      reads this, prevotes, prevotes.votes, precommits, precommits.votes
    {
      seat.me < |seat.w| && Fits(prevotes) && Fits(precommits) && prevotes != precommits && prevotes.votes != precommits.votes
    }

    ghost function Abs(): Node
      requires Valid()
      reads this, prevotes, prevotes.votes, precommits, precommits.votes
    {
      Node(height, step, pass, block, prevotes.Abs(), precommits.Abs(), log)
    }

    constructor (seat: Seat)
      requires seat.me < |seat.w|
      ensures Valid() && Abs() == START && out == SILENT && this.seat == seat
      ensures fresh(prevotes) && fresh(prevotes.votes) && fresh(precommits) && fresh(precommits.votes)
    {
      this.seat := seat;
      height, step, pass, block := 0, PROPOSE, NEW_HEIGHT, None;
      prevotes := new VoteSet(|seat.w|, Total(seat.w));
      precommits := new VoteSet(|seat.w|, Total(seat.w));
      out := SILENT;
      log := [];
    }

    method FinishProposal() returns (done: bool)
      modifies this`pass
      ensures done == (old(pass) >= PROPOSE || block.Some?)
      ensures pass == if done && old(pass) < PROPOSE then PROPOSE else old(pass)
    {
      if pass >= PROPOSE { return true; }
      if block.None? { return false; }
      pass := PROPOSE;
      return true;
    }

    method FinishPrevote() returns (done: bool)
      requires Valid()
      modifies this`pass
      ensures done == FinishesPrevote(old(Abs()))
      ensures pass == if done && old(pass) < PREVOTE then PREVOTE
                      else if FinishesProposal(old(Abs())) && old(pass) < PROPOSE then PROPOSE else old(pass)
    {
      if pass >= PREVOTE { return true; }
      var proposed := FinishProposal();
      if !proposed { return false; }
      if !prevotes.hasMajority { return false; }
      pass := PREVOTE;
      return true;
    }

    method FinishPrecommit() returns (done: bool)
      requires Valid()
      modifies this`pass
      ensures done == FinishesPrecommit(old(Abs()))
      ensures pass == if done && old(pass) < PRECOMMIT then PRECOMMIT
                      else if FinishesPrevote(old(Abs())) && old(pass) < PREVOTE then PREVOTE
                      else if FinishesProposal(old(Abs())) && old(pass) < PROPOSE then PROPOSE else old(pass)
    {
      if pass >= PRECOMMIT { return true; }
      var prevoted := FinishPrevote();
      if !prevoted { return false; }
      if !precommits.hasMajority { return false; }
      pass := PRECOMMIT;
      return true;
    }

    method CastPrevote(v: Vote)
      requires Valid() && v.index == seat.me
      modifies this`out, prevotes, prevotes.votes
      ensures Valid() && prevotes == old(prevotes) && prevotes.votes == old(prevotes.votes)
      ensures Abs() == old(Abs()).(prevotes := AddOwn(seat, old(Abs()).prevotes, v))
      ensures out == Out(old(out).prevotes + {v}, old(out).precommits)
    {
      hide PyramidVotes.AddVote, Slots;
      var _ := prevotes.AddVote(v, seat.w[seat.me]);
      out := out.(prevotes := out.prevotes + {v});
    }

    method CastPrecommit(v: Vote)
      requires Valid() && v.index == seat.me
      modifies this`out, precommits, precommits.votes
      ensures Valid() && precommits == old(precommits) && precommits.votes == old(precommits.votes)
      ensures Abs() == old(Abs()).(precommits := AddOwn(seat, old(Abs()).precommits, v))
      ensures out == Out(old(out).prevotes, old(out).precommits + {v})
    {
      hide PyramidVotes.AddVote, Slots;
      var _ := precommits.AddVote(v, seat.w[seat.me]);
      out := out.(precommits := out.precommits + {v});
    }

    /** doPropose, and the step after it. */
    method EndPropose(ok: bool) returns (done: bool)
      requires Valid() && step == PROPOSE
      modifies this, prevotes, prevotes.votes
      ensures Valid() && prevotes == old(prevotes) && prevotes.votes == old(prevotes.votes)
      ensures precommits == old(precommits) && precommits.votes == old(precommits.votes)
      ensures done == FinishesProposal(old(Abs()))
      ensures Abs() == if done then DoPropose(seat, old(Abs()), ok) else old(Abs())
      ensures out == if done then Out(old(out).prevotes + {OwnPrevote(seat, old(Abs()), ok)}, old(out).precommits) else old(out)
    {
      hide AddOwn, Fits;
      done := FinishProposal();
      if done {
        CastPrevote(Vote(height, seat.me, if block.Some? then block.value else [], ok));
        step := step + 1;
      }
    }

    /** doPrevote, and the step after it. */
    method EndPrevote() returns (done: bool)
      requires Valid() && step == PREVOTE
      modifies this, precommits, precommits.votes
      ensures Valid() && prevotes == old(prevotes) && prevotes.votes == old(prevotes.votes)
      ensures precommits == old(precommits) && precommits.votes == old(precommits.votes)
      ensures done == FinishesPrevote(old(Abs()))
      ensures Abs() == if done then DoPrevote(seat, old(Abs())) else old(Abs()).(pass := pass)
      ensures !done ==> pass == if FinishesProposal(old(Abs())) && old(pass) < PROPOSE then PROPOSE else old(pass)
      ensures out == if done then Out(old(out).prevotes, old(out).precommits + {OwnPrecommit(seat, old(Abs()))}) else old(out)
    {
      hide AddOwn, Slots;
      done := FinishPrevote();
      if done {
        CastPrecommit(Vote(height, seat.me, prevotes.majorityKey, prevotes.majorityCode));
        step := step + 1;
      }
    }

    /** doPrecommit, and the step after it. */
    method EndPrecommit() returns (done: bool)
      requires Valid() && step == PRECOMMIT
      modifies this`pass, this`log, this`step
      ensures Valid() && done == FinishesPrecommit(old(Abs()))
      ensures Abs() == if done then DoPrecommit(old(Abs())) else old(Abs()).(pass := pass)
      ensures !done ==> pass == if FinishesPrevote(old(Abs())) && old(pass) < PREVOTE then PREVOTE
                                else if FinishesProposal(old(Abs())) && old(pass) < PROPOSE then PROPOSE else old(pass)
    {
      done := FinishPrecommit();
      if done {
        log := log + [Record(if block.Some? then block.value else [], prevotes.Abs(), precommits.Abs())];
        step := step + 1;
      }
    }

    /** handleStateTransition calls itself until a step is not finished. */
    method HandleStateTransition(ok: bool)
      requires Valid()
      modifies this, prevotes, prevotes.votes, precommits, precommits.votes
      ensures Valid() && prevotes == old(prevotes) && prevotes.votes == old(prevotes.votes)
      ensures precommits == old(precommits) && precommits.votes == old(precommits.votes)
      ensures Abs() == Drive(seat, old(Abs()), ok)
      ensures out == Out(old(out).prevotes + Cast(seat, old(Abs()), ok).prevotes,
                         old(out).precommits + Cast(seat, old(Abs()), ok).precommits)
      decreases COMMIT - step
    {
      hide AddOwn, Fits, FinishesProposal, FinishesPrevote, FinishesPrecommit, OwnPrevote, OwnPrecommit;
      var done := false;
      if step == PROPOSE {
        done := EndPropose(ok);
      } else if step == PREVOTE {
        done := EndPrevote();
      } else if step == PRECOMMIT {
        done := EndPrecommit();
      }
      if done {
        HandleStateTransition(ok);
      }
    }

    /** The last part of a proposed block arrives. */
    method ReceiveBlock(hash: Bytes, ok: bool)
      requires Valid()
      modifies this, prevotes, prevotes.votes, precommits, precommits.votes
      ensures Valid()
      ensures var d' := TakeBlock(old(Abs()), hash);
              && Abs() == Drive(seat, d', ok)
              && out == Out(old(out).prevotes + Cast(seat, d', ok).prevotes, old(out).precommits + Cast(seat, d', ok).precommits)
    {
      hide Drive, Cast, Fits;
      if block.None? { block := Some(hash); }
      HandleStateTransition(ok);
    }

    /** A prevote whose signature was checked. */
    method ReceivePrevote(v: Vote, ok: bool)
      requires Valid()
      modifies this, prevotes, prevotes.votes, precommits, precommits.votes
      ensures Valid()
      ensures var d := old(Abs());
              if !Counts(seat, d, v) || IsAmbiguous(d.prevotes, v) then Abs() == d && out == old(out)
              else
                var d' := TakePrevote(seat, d, v);
                && Abs() == Drive(seat, d', ok)
                && out == Out(old(out).prevotes + Cast(seat, d', ok).prevotes, old(out).precommits + Cast(seat, d', ok).precommits)
    {
      hide Drive, Cast, PyramidVotes.AddVote, IsAmbiguous, Slots;
      if v.height != height || v.index >= |seat.w| { return; }
      var ambiguous := prevotes.AddVote(v, seat.w[v.index]);
      if ambiguous {
        SecondVote(old(Abs()).prevotes, v, seat.w[v.index], Total(seat.w));
        return;
      }
      HandleStateTransition(ok);
    }

    /** A precommit whose signature was checked. */
    method ReceivePrecommit(v: Vote, ok: bool)
      requires Valid()
      modifies this, prevotes, prevotes.votes, precommits, precommits.votes
      ensures Valid()
      ensures var d := old(Abs());
              if !Counts(seat, d, v) || IsAmbiguous(d.precommits, v) then Abs() == d && out == old(out)
              else
                var d' := TakePrecommit(seat, d, v);
                && Abs() == Drive(seat, d', ok)
                && out == Out(old(out).prevotes + Cast(seat, d', ok).prevotes, old(out).precommits + Cast(seat, d', ok).precommits)
    {
      hide Drive, Cast, PyramidVotes.AddVote, IsAmbiguous, Slots;
      if v.height != height || v.index >= |seat.w| { return; }
      var ambiguous := precommits.AddVote(v, seat.w[v.index]);
      if ambiguous {
        SecondVote(old(Abs()).precommits, v, seat.w[v.index], Total(seat.w));
        return;
      }
      HandleStateTransition(ok);
    }

    method EnterNewHeight()
      requires Valid() && step == COMMIT
      modifies this
      ensures Valid() && Abs() == NewHeight(old(Abs())) && out == old(out)
      ensures fresh(prevotes) && fresh(prevotes.votes) && fresh(precommits) && fresh(precommits.votes)
    {
      hide Slots;
      height, step, pass, block := height + 1, PROPOSE, NEW_HEIGHT, None;
      prevotes := new VoteSet(|seat.w|, Total(seat.w));
      precommits := new VoteSet(|seat.w|, Total(seat.w));
    }
  }

  lemma SecondVote(t: Tally, v: Vote, weight: int, total: int)
    requires IsAmbiguous(t, v)
    ensures PyramidVotes.AddVote(t, v, weight, total) == t
  {
  }
}
