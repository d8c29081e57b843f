/** What the blocks of a chain carry from outside: the transactions that a proposal took, when and for which shard
    (urd/consensus/state_transition.go). */
module UrdContents {
  import opened Bytes
  import opened Merkle
  import opened UrdTypes
  import opened UrdHistory
  import opened UrdPipeline
  import opened UrdLeader
  import opened UrdRun

  const PREPARE_LEAF: nat := 2

  /** The block has the shard's name and exactly what the proposal took; its hash covers the inner-shard transactions. */
  predicate Carries(c: Crypto, name: Bytes, b: Block, inp: Input) {
    && b.header.chainId == name && b.header.time == inp.time && b.header.round == 0
    && b.ptxs == inp.ptxs && b.crossShardTxs == inp.crossShardTxs
    && BlockLeaves(c, b)[PREPARE_LEAF] == if inp.ptxs.Some? then Root(c.h, inp.ptxs.value) else []
  }

  /** Block i of a chain of this shard, with what was executed before it; there is nothing to execute before the third. */
  predicate CarriesAt(c: Crypto, names: seq<Bytes>, l: Leader, i: nat)
    requires l.id < |names| && i < |l.history.chain| == |l.history.inputs| == |l.history.outputs|
  {
    && Carries(c, names[l.id], l.history.chain[i], l.history.inputs[i])
    && l.history.outputs[i] == if i >= 2 then l.history.inputs[i].opTxs else []
  }

  ghost predicate CarriesAll(c: Crypto, names: seq<Bytes>, l: Leader) {
    var h := l.history;
    && l.id < |names| && |h.chain| == |h.inputs| == |h.outputs| && l.pool == Window(h.chain)
    && h.executed == (if |h.chain| >= 2 then h.chain[..|h.chain| - 2] else [])
    && forall i :: 0 <= i < |h.chain| ==> CarriesAt(c, names, l, i)
  }

  lemma MadeCarries(c: Crypto, names: seq<Bytes>, l: Leader, inp: Input)
    requires l.id < |names| && ProposeIsDefined(|names|, l)
    ensures Carries(c, names[l.id], MakeBlock(c, names, l.id, l.view + 1, l.pool, l.finished, ExecutionOutputs(l, inp), inp), inp)
  {
    hide Root, HeldVotes, HeldCores, HeldTxs, HeldTxsProofs, HashOf, CertificateHash, CommitTxsRoot, IntentionHash, VoteHash;
  }

  lemma FetchSecondOf(chain: seq<Block>)
    ensures FetchBlock(Window(chain), 2) == if |chain| >= 2 then Some(chain[|chain| - 2]) else None
  {
  }

  lemma ProposeCarries(c: Crypto, names: seq<Bytes>, l: Leader, inp: Input)
    requires CarriesAll(c, names, l) && ProposeIsDefined(|names|, l)
    ensures CarriesAll(c, names, Propose(c, names, l, inp))
    ensures Propose(c, names, l, inp).history.inputs == l.history.inputs + [inp]
    ensures |Propose(c, names, l, inp).history.chain| == |l.history.chain| + 1 && Propose(c, names, l, inp).id == l.id
  {
    hide MakeBlock, Carries, Window, AppendBlock, FetchBlock;
    var (l', h) := (Propose(c, names, l, inp), l.history);
    var b := MakeBlock(c, names, l.id, l.view + 1, l.pool, l.finished, ExecutionOutputs(l, inp), inp);
    MadeCarries(c, names, l, inp);
    WindowOfAppend(h.chain, b);
    FetchSecondOf(h.chain);
    assert |h.chain| >= 2 ==> h.chain[..|h.chain| - 2] + [h.chain[|h.chain| - 2]] == (h.chain + [b])[..|h.chain| - 1];
    forall i | 0 <= i < |l'.history.chain| ensures CarriesAt(c, names, l', i) {
      if i < |h.chain| { assert CarriesAt(c, names, l, i); }
    }
  }

  /** The leader goes on with what it has proposed, or with one more block. */
  ghost predicate CarriesOn(c: Crypto, names: seq<Bytes>, l: Leader, l': Leader, inp: Input) {
    && CarriesAll(c, names, l') && l'.id == l.id
    && ((l'.history.inputs == l.history.inputs && l'.history.chain == l.history.chain) ||
        (l'.history.inputs == l.history.inputs + [inp] && |l'.history.chain| == |l.history.chain| + 1))
  }

  lemma SameCarries(c: Crypto, names: seq<Bytes>, l: Leader, l': Leader)
    requires CarriesAll(c, names, l) && l'.id == l.id && l'.pool == l.pool
    requires l'.history == l.history.(votes := l'.history.votes)
    ensures CarriesAll(c, names, l')
  {
    hide Carries, Window;
    forall i | 0 <= i < |l.history.chain| ensures CarriesAt(c, names, l', i) { assert CarriesAt(c, names, l, i); }
  }

  lemma DriveCarries(c: Crypto, names: seq<Bytes>, l: Leader, inp: Input)
    requires CarriesAll(c, names, l) && DriveIsDefined(c, |names|, l)
    ensures CarriesOn(c, names, l, Drive(c, names, l, inp), inp)
  {
    hide CarriesAll, Propose, MakeMessage, Redo, IsComplete, ProposeIsDefined;
    var l1 := l;
    if l.step == LeaderVote && l.agg.Some? {
      l1 := Communicate(c, |names|, l);
      assert l1.pool == l.pool && l1.id == l.id && l1.history == l.history.(votes := l1.history.votes) by { RedoIsLocal(l); }
      SameCarries(c, names, l, l1);
    }
    if (l.step == LeaderWait || l.agg.Some?) && IsComplete(l1) {
      ProposeCarries(c, names, l1, inp);
    }
  }

  lemma StartCarries(c: Crypto, names: seq<Bytes>, id: nat, inp: Input)
    requires id < |names|
    ensures CarriesAll(c, names, Start(c, names, id, inp)) && Start(c, names, id, inp).id == id
    ensures Start(c, names, id, inp).history.inputs == [inp] && |Start(c, names, id, inp).history.chain| == 1
  {
    hide Propose, Carries, CarriesAt;
    var l := Fresh(|names|, id);
    ProposeCarries(c, names, l, inp);
    SameCarries(c, names, Propose(c, names, l, inp), Start(c, names, id, inp));
    assert [] + [inp] == [inp];
  }

  lemma EnteringCarries(c: Crypto, names: seq<Bytes>, g: Global, e: Event)
    requires e.i < |g.leaders| && CarriesAll(c, names, g.leaders[e.i])
    ensures CarriesAll(c, names, Entering(g, e)) && Entering(g, e).history == g.leaders[e.i].history && Entering(g, e).id == g.leaders[e.i].id
  {
    hide CarriesAll, LastHash;
    SameCarries(c, names, g.leaders[e.i], Entering(g, e));
  }

  // ----- every run -----

  /** The inputs of the events at leader i, in order. */
  function InputsAt(es: seq<Event>, i: nat): seq<Input> {
    if es == [] then [] else InputsAt(Front(es), i) + if Last(es).i == i then [Last(es).inp] else []
  }

  /** xs are some of ys, in the same order. */
  predicate AreDrawnFrom(xs: seq<Input>, ys: seq<Input>)
    decreases |ys|
  {
    xs == [] || (ys != [] && (AreDrawnFrom(xs, Front(ys)) || (Last(xs) == Last(ys) && AreDrawnFrom(Front(xs), Front(ys)))))
  }

  lemma DrawnOneMore(xs: seq<Input>, ys: seq<Input>, inp: Input)
    requires AreDrawnFrom(xs, ys)
    ensures AreDrawnFrom(xs, ys + [inp]) && AreDrawnFrom(xs + [inp], ys + [inp])
  {
    assert Front(ys + [inp]) == ys && Front(xs + [inp]) == xs;
  }

  /** In every run, every block of every shard has its shard's name, its time, and exactly the transactions that its
      proposal took; its outputs are what the execution before it gave; and the blocks executed are the chain but its last
      two. The first proposal takes the input of Start, the others take inputs of events at that leader, in order. */
  lemma {:induction false} RunsCarryTransactions(c: Crypto, names: seq<Bytes>, inputs: seq<Input>, es: seq<Event>, g: Global, s: nat)
    requires |inputs| == |names| && Reaches(c, names, inputs, es, g) && s < |names|
    ensures |g.leaders| == |names| && CarriesAll(c, names, g.leaders[s]) && g.leaders[s].id == s
    ensures var taken := g.leaders[s].history.inputs;
            |taken| >= 1 && taken[0] == inputs[s] && AreDrawnFrom(taken[1..], InputsAt(es, s))
    decreases |es|
  {
    hide CarriesAll, Apply, AreDrawnFrom, Start, NoPanic, Enabled;
    if es == [] {
      StartCarries(c, names, s, inputs[s]);
      assert AreDrawnFrom([], []) by { NoneDrawn(); }
    } else {
      var g0 :| Reaches(c, names, inputs, Front(es), g0) && Takes(c, names, g0, Last(es), g);
      RunsCarryTransactions(c, names, inputs, Front(es), g0, s);
      EventInRange(c, names, g0, Last(es));
      TakesCarries(c, names, g0, Last(es), s);
      var (taken0, taken, all) := (g0.leaders[s].history.inputs, g.leaders[s].history.inputs, InputsAt(Front(es), s));
      if Last(es).i == s {
        DrawnOneMore(taken0[1..], all, Last(es).inp);
        assert taken == taken0 || taken[1..] == taken0[1..] + [Last(es).inp];
      } else {
        assert InputsAt(es, s) == all;
      }
    }
  }

  lemma NoneDrawn()
    ensures AreDrawnFrom([], [])
  {
  }

  lemma EventInRange(c: Crypto, names: seq<Bytes>, g: Global, e: Event)
    requires Enabled(c, names, g, e)
    ensures e.i < |g.leaders|
  {
  }

  lemma TakesCarries(c: Crypto, names: seq<Bytes>, g: Global, e: Event, s: nat)
    requires e.i < |g.leaders| && NoPanic(c, names, g, e) && s < |g.leaders| && CarriesAll(c, names, g.leaders[s])
    ensures var g' := Apply(c, names, g, e);
            && |g'.leaders| == |g.leaders|
            && (s != e.i ==> g'.leaders[s] == g.leaders[s])
            && CarriesOn(c, names, g.leaders[s], g'.leaders[s], e.inp)
  {
    hide CarriesAll, Drive, DriveIsDefined, Entering, Refused, Sent;
    if s == e.i && !IsRefused(c, names, g, e) {
      EnteringCarries(c, names, g, e);
      DriveCarries(c, names, Entering(g, e), e.inp);
    }
  }

  /** Each executed block of every run carries the transactions that its proposal took, in the order of the proposals. */
  lemma ExecutedAreReaped(c: Crypto, names: seq<Bytes>, inputs: seq<Input>, es: seq<Event>, g: Global, s: nat, i: nat)
    requires |inputs| == |names| && Reaches(c, names, inputs, es, g) && s < |names|
    ensures |g.leaders| == |names|
    ensures var h := g.leaders[s].history;
            i < |h.executed| ==> i < |h.inputs| && h.executed[i].ptxs == h.inputs[i].ptxs && h.executed[i].crossShardTxs == h.inputs[i].crossShardTxs
  {
    hide Reaches;
    RunsCarryTransactions(c, names, inputs, es, g, s);
    var l := g.leaders[s];
    if i < |l.history.executed| { assert CarriesAt(c, names, l, i); }
  }
}
