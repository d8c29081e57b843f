/** The order in which blocks are executed, by leaders and by the validators that follow them
    (urd/consensus/state_transition.go). */
module UrdExecution {
  import opened Bytes
  import opened UrdTypes
  import opened UrdHistory
  import opened UrdPipeline
  import opened UrdLeader
  import opened UrdLockstep
  import opened UrdRun
  import opened UrdTheorems
  import V = UrdVotes

  /** A validator; the blocks it has accepted and executed are kept in full beside its window. */
  datatype Validator = Validator(view: nat, pool: seq<Block>, accepted: seq<Block>, executed: seq<Block>)

  /** Start at view 0 as a validator. */
  const START: Validator := Validator(1, [], [], [])

  /** doValidate: a block that passes is appended, after executing the block two places back. */
  function Validate(c: Crypto, n: nat, d: Validator, b: Block): Validator
    requires VerifyIsDefined(b)
  {
    if !VerifyBlock(c, n, d.pool, b) then d
    else Validator(d.view + 1, AppendBlock(d.pool, b), d.accepted + [b],
                   if FetchBlock(d.pool, 2).Some? then d.executed + [FetchBlock(d.pool, 2).value] else d.executed)
  }

  function ValidateAll(c: Crypto, n: nat, d: Validator, bs: seq<Block>): Validator
    requires forall i :: 0 <= i < |bs| ==> VerifyIsDefined(bs[i])
  {
    if bs == [] then d else Validate(c, n, ValidateAll(c, n, d, bs[..|bs| - 1]), bs[|bs| - 1])
  }

  /** The first blocks of a chain, except the last two. */
  function Settled(chain: seq<Block>): seq<Block> {
    if |chain| >= 2 then chain[..|chain| - 2] else []
  }

  /** A validator's window and log follow from the blocks it accepted. */
  predicate InStep(d: Validator) {
    d.view == |d.accepted| + 1 && d.pool == Window(d.accepted) && d.executed == Settled(d.accepted)
  }

  lemma SettledOfAppend(chain: seq<Block>, b: Block)
    ensures Settled(chain + [b]) ==
            if FetchBlock(Window(chain), 2).Some? then Settled(chain) + [FetchBlock(Window(chain), 2).value] else Settled(chain)
  {
    if |chain| >= 2 {
      FetchFromWindow(chain, 2);
      assert (chain + [b])[..|chain| - 1] == chain[..|chain| - 2] + [chain[|chain| - 2]];
    }
  }

  lemma ValidateKeepsStep(c: Crypto, n: nat, d: Validator, b: Block)
    requires InStep(d) && VerifyIsDefined(b)
    ensures InStep(Validate(c, n, d, b))
  {
    hide VerifyBlock, Settled, Window, AppendBlock, FetchBlock;
    SettledOfAppend(d.accepted, b);
    WindowOfAppend(d.accepted, b);
  }

  /** Whatever blocks a validator is shown, it executes what it accepts: each block once, in order, two behind. */
  lemma {:induction false} ValidatorsStayInStep(c: Crypto, n: nat, bs: seq<Block>)
    requires forall i :: 0 <= i < |bs| ==> VerifyIsDefined(bs[i])
    ensures InStep(ValidateAll(c, n, START, bs))
  {
    if bs == [] {
    } else {
      ValidatorsStayInStep(c, n, bs[..|bs| - 1]);
      ValidateKeepsStep(c, n, ValidateAll(c, n, START, bs[..|bs| - 1]), bs[|bs| - 1]);
    }
  }

  // ----- what is accepted -----

  /** The hash of the block that many places before the end of a chain, and nil if there is none. */
  function HashBack(c: Crypto, chain: seq<Block>, back: nat): Bytes
    requires back >= 1
  {
    if |chain| >= back then BlockHash(c, chain[|chain| - back]) else []
  }

  /** From view 5 on, the vote in the block is on the last block accepted and names the one before it, and there are an
      intention and a certificate core for each of the n shards. */
  predicate Continues(c: Crypto, n: nat, accepted: seq<Block>, b: Block) {
    b.header.view >= 5 ==>
      && b.aggSigVote.Some? && b.ci.Some?
      && b.aggSigVote.value.forHash == HashBack(c, accepted, 1) && LastHash(b.aggSigVote.value) == HashBack(c, accepted, 2)
      && |b.ci.value.intentionHash| == n && |b.cc| == n
  }

  lemma FetchIsBack(c: Crypto, chain: seq<Block>, back: nat)
    requires 1 <= back <= 2
    ensures HashOf(c, FetchBlock(Window(chain), back)) == HashBack(c, chain, back)
  {
    hide BlockHash;
    if back <= |chain| { FetchFromWindow(chain, back); }
  }

  /** A validator appends a block exactly when it continues what was accepted, and otherwise stays as it is. */
  lemma AcceptsIffContinues(c: Crypto, n: nat, d: Validator, b: Block)
    requires InStep(d) && VerifyIsDefined(b)
    ensures var d' := Validate(c, n, d, b);
            if Continues(c, n, d.accepted, b) then d'.accepted == d.accepted + [b] && d'.view == d.view + 1 else d' == d
  {
    hide HashOf, HashBack, FetchBlock, Window, AppendBlock, LastHash, Settled;
    FetchIsBack(c, d.accepted, 1);
    FetchIsBack(c, d.accepted, 2);
  }

  /** Whatever blocks a validator is shown, each block that it accepted continues those accepted before it. */
  lemma {:induction false} AcceptedContinue(c: Crypto, n: nat, bs: seq<Block>, i: nat)
    requires forall j :: 0 <= j < |bs| ==> VerifyIsDefined(bs[j])
    ensures var accepted := ValidateAll(c, n, START, bs).accepted;
            i < |accepted| ==> Continues(c, n, accepted[..i], accepted[i])
  {
    hide Continues, Validate, InStep, VerifyIsDefined;
    if bs != [] {
      var d := ValidateAll(c, n, START, bs[..|bs| - 1]);
      var b := bs[|bs| - 1];
      AcceptedContinue(c, n, bs[..|bs| - 1], i);
      ValidatorsStayInStep(c, n, bs[..|bs| - 1]);
      AcceptsIffContinues(c, n, d, b);
      if Continues(c, n, d.accepted, b) {
        var accepted := d.accepted + [b];
        if i < |d.accepted| { assert accepted[..i] == d.accepted[..i] && accepted[i] == d.accepted[i]; }
        if i == |d.accepted| { assert accepted[..i] == d.accepted; }
      }
    }
  }

  /** The vote that doValidate sends on a block. */
  function VoteOn(c: Crypto, n: nat, d: Validator, b: Block, index: nat): V.Vote
    requires VerifyIsDefined(b)
  {
    V.Vote(index, b.header.view, b.header.round, BlockHash(c, b), VerifyBlock(c, n, d.pool, b), [HashOf(c, FetchBlock(d.pool, 1))])
  }

  /** A validator's vote is on the block shown, accepts it exactly when it continues what was accepted, and names the last
      block accepted. */
  lemma VoteSaysWhatIsAccepted(c: Crypto, n: nat, d: Validator, b: Block, index: nat)
    requires InStep(d) && VerifyIsDefined(b)
    ensures var v := VoteOn(c, n, d, b, index);
            && v.forHash == BlockHash(c, b) && v.view == b.header.view && v.round == b.header.round
            && (v.ok <==> Continues(c, n, d.accepted, b)) && v.data == [HashBack(c, d.accepted, 1)]
  {
    hide HashOf, HashBack, FetchBlock, Window, AppendBlock, LastHash, Settled, BlockHash;
    FetchIsBack(c, d.accepted, 1);
    FetchIsBack(c, d.accepted, 2);
  }

  lemma AcceptsNext(c: Crypto, n: nat, chain: seq<Block>, k: nat)
    requires k < |chain| && forall i :: 0 <= i <= k ==> VerifyIsDefined(chain[i])
    requires ValidateAll(c, n, START, chain[..k]).accepted == chain[..k]
    requires VerifyBlock(c, n, Window(chain[..k]), chain[k])
    ensures ValidateAll(c, n, START, chain[..k + 1]).accepted == chain[..k + 1]
  {
    hide VerifyBlock, VerifyIsDefined, Window, AppendBlock, FetchBlock, Settled;
    var bs := chain[..k + 1];
    assert bs[..|bs| - 1] == chain[..k] && bs[|bs| - 1] == chain[k];
    ValidatorsStayInStep(c, n, chain[..k]);
    assert chain[..k] + [chain[k]] == bs;
  }

  /** A validator accepts its leader's whole chain. */
  lemma {:induction false} ValidatorsFollow(c: Crypto, hs: seq<History>, s: nat, k: nat)
    requires Aligned(c, hs) && s < |hs| && k <= |hs[s].chain|
    ensures forall i :: 0 <= i < k ==> VerifyIsDefined(hs[s].chain[i])
    ensures ValidateAll(c, |hs|, START, hs[s].chain[..k]).accepted == hs[s].chain[..k]
  {
    hide Aligned, VerifyBlock, VerifyIsDefined, Window;
    if k > 0 {
      hide ValidateAll;
      ValidatorsFollow(c, hs, s, k - 1);
      BlocksPassVerification(c, hs, s, k);
      AcceptsNext(c, |hs|, hs[s].chain, k - 1);
    }
  }

  /** A validator that has seen its leader's chain before block v accepts that block in its vote, and the vote is one that
      the leader counts: on that block, and naming the block before. */
  lemma FollowersVoteForIt(c: Crypto, hs: seq<History>, s: nat, v: nat, index: nat)
    requires Aligned(c, hs) && s < |hs| && 1 <= v <= |hs[s].chain|
    ensures forall i :: 0 <= i < v ==> VerifyIsDefined(hs[s].chain[i])
    ensures var (d, b) := (ValidateAll(c, |hs|, START, hs[s].chain[..v - 1]), hs[s].chain[v - 1]);
            VoteOn(c, |hs|, d, b, index) == V.Vote(index, v, 0, HashAt(c, hs[s], v), true, [HashAt(c, hs[s], v - 1)])
  {
    hide VerifyBlock, VerifyIsDefined, Window, ValidateAll, BlockHash, HashOf, FetchBlock, ChainHolds, Settled;
    var chain := hs[s].chain;
    ValidatorsFollow(c, hs, s, v);
    ValidatorsFollow(c, hs, s, v - 1);
    ValidatorsStayInStep(c, |hs|, chain[..v - 1]);
    BlocksPassVerification(c, hs, s, v);
    FetchIsBack(c, chain[..v - 1], 1);
    assert BlockInPlace(c, |hs|, hs[s], v);
  }

  /** In every run, a leader has executed its chain except the last two blocks. */
  lemma LeadersExecuteInOrder(c: Crypto, names: seq<Bytes>, inputs: seq<Input>, es: seq<Event>, g: Global, s: nat)
    requires InputsFit(names, inputs) && Reaches(c, names, inputs, es, g) && NoClash(c, Histories(g)) && s < |g.leaders|
    ensures g.leaders[s].history.executed == Settled(g.leaders[s].history.chain)
  {
    hide Inv, Reaches, NoClash, Aligned, Held;
    EveryRunIsInOrder(c, names, inputs, es, g);
    LeaderFacts(c, names, g, s);
  }

  /** The logs of a leader and of a validator that has seen k of its blocks never fork: the validator's log is a
      prefix of the leader's, and equals it when the validator has seen everything. */
  lemma LogsNeverFork(c: Crypto, names: seq<Bytes>, inputs: seq<Input>, es: seq<Event>, g: Global, s: nat, k: nat)
    requires InputsFit(names, inputs) && Reaches(c, names, inputs, es, g) && NoClash(c, Histories(g)) && s < |g.leaders|
    requires k <= |g.leaders[s].history.chain|
    ensures var (chain, log) := (g.leaders[s].history.chain, g.leaders[s].history.executed);
            && (forall i :: 0 <= i < k ==> VerifyIsDefined(chain[i]))
            && ValidateAll(c, |names|, START, chain[..k]).executed <= log
            && (k == |chain| ==> ValidateAll(c, |names|, START, chain[..k]).executed == log)
  {
    hide Inv, Reaches, NoClash, Aligned, ValidateAll, VerifyIsDefined, Window;
    EveryRunIsInOrder(c, names, inputs, es, g);
    InvIsAligned(c, names, g);
    LeadersExecuteInOrder(c, names, inputs, es, g, s);
    ValidatorsFollow(c, Histories(g), s, k);
    ValidatorsStayInStep(c, |names|, g.leaders[s].history.chain[..k]);
  }
}
