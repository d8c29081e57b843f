/** What every run of the leaders guarantees. The only assumption is that no two blocks of one chain give away a
    collision of the hash function, and the collision it would take is computed from the blocks. */
module UrdTheorems {
  import opened Bytes
  import opened Merkle
  import opened MerkleProof
  import opened MerkleBinding
  import opened UrdTypes
  import opened UrdHistory
  import opened UrdPipeline
  import opened UrdLeader
  import opened UrdLockstep
  import opened UrdRun

  // ----- different views have different hashes -----

  const VIEW_LIMIT: nat := 0x1_0000_0000_0000_0000

  function Power256(size: nat): (r: nat)
    ensures r >= 1
  {
    if size == 0 then 1 else 256 * Power256(size - 1)
  }

  lemma {:induction false} LittleEndianInjective(a: nat, b: nat, size: nat)
    requires a < Power256(size) && b < Power256(size) && LittleEndian(a, size) == LittleEndian(b, size)
    ensures a == b
    decreases size
  {
    if size > 0 {
      var (x, y) := (LittleEndian(a, size), LittleEndian(b, size));
      assert x[0] == a % 256 && y[0] == b % 256;
      assert x[1..] == LittleEndian(a / 256, size - 1) && y[1..] == LittleEndian(b / 256, size - 1);
      LittleEndianInjective(a / 256, b / 256, size - 1);
    }
  }

  lemma ViewLimitIsPower()
    ensures Power256(8) == VIEW_LIMIT
  {
    assert Power256(1) == 256;
    assert Power256(2) == 0x1_0000;
    assert Power256(4) == 0x1_0000_0000 by { assert Power256(3) == 0x100_0000; }
    assert Power256(6) == 0x1_0000_0000_0000 by { assert Power256(5) == 0x100_0000_0000; }
    assert Power256(7) == 0x100_0000_0000_0000;
  }

  /** Two blocks with one hash: the strings to look at. */
  function BlockClash(c: Crypto, a: Block, b: Block): (Bytes, Bytes) {
    if BlockLeaves(c, a) != BlockLeaves(c, b) then Clash(c.h, TreeOf(BlockLeaves(c, a)), TreeOf(BlockLeaves(c, b)))
    else Clash(c.h, TreeOf(PackageLeaves(FillInHeader(c, a))), TreeOf(PackageLeaves(FillInHeader(c, b))))
  }

  lemma HeaderKeepsView(c: Crypto, b: Block)
    ensures FillInHeader(c, b).view == b.header.view
  {
  }

  lemma PackagesDiffer(a: Header, b: Header)
    requires a.view < VIEW_LIMIT && b.view < VIEW_LIMIT && PackageLeaves(a) == PackageLeaves(b)
    ensures a.view == b.view
  {
    hide LittleEndian;
    assert PackageLeaves(a)[1] == LittleEndian(a.view, 8) && PackageLeaves(b)[1] == LittleEndian(b.view, 8);
    ViewLimitIsPower();
    LittleEndianInjective(a.view, b.view, 8);
  }

  /** A block hash fixes the view, unless the hash function collides. */
  lemma BlockHashFixesView(c: Crypto, a: Block, b: Block)
    requires BlockHash(c, a) == BlockHash(c, b) && a.header.view < VIEW_LIMIT && b.header.view < VIEW_LIMIT
    ensures a.header.view == b.header.view || Collides(c.h, BlockClash(c, a, b))
  {
    hide Root, FillInHeader, PackageLeaves, Clash, TreeOf, Collides;
    RootBinds(c.h, BlockLeaves(c, a), BlockLeaves(c, b));
    if BlockLeaves(c, a) == BlockLeaves(c, b) {
      var (x, y) := (FillInHeader(c, a), FillInHeader(c, b));
      assert BlockLeaves(c, a)[0] == Root(c.h, PackageLeaves(x)) && BlockLeaves(c, b)[0] == Root(c.h, PackageLeaves(y));
      RootBinds(c.h, PackageLeaves(x), PackageLeaves(y));
      HeaderKeepsView(c, a);
      HeaderKeepsView(c, b);
      if PackageLeaves(x) == PackageLeaves(y) {
        PackagesDiffer(x, y);
      }
    }
  }

  /** Views fit their eight bytes. */
  predicate ViewsFit(hs: seq<History>) {
    forall t :: 0 <= t < |hs| ==> |hs[t].chain| < VIEW_LIMIT
  }

  /** No two blocks of one chain give a collision away. */
  ghost predicate NoneCollide(c: Crypto, hs: seq<History>) {
    forall t, u, v :: 0 <= t < |hs| && 0 <= u < |hs[t].chain| && 0 <= v < |hs[t].chain| ==>
      !Collides(c.h, BlockClash(c, hs[t].chain[u], hs[t].chain[v]))
  }

  ghost predicate NoClash(c: Crypto, hs: seq<History>) {
    ViewsFit(hs) && NoneCollide(c, hs)
  }

  lemma NoClashMeansNoCollision(c: Crypto, hs: seq<History>)
    requires Aligned(c, hs) && NoClash(c, hs)
    ensures NoCollision(c, hs)
  {
    hide BlockHash, Collides, BlockClash, ChainHolds;
    forall t, u, v | 0 <= t < |hs| && 0 <= u <= |hs[t].chain| && 0 <= v <= |hs[t].chain| &&
                     HashAt(c, hs[t], u) == HashAt(c, hs[t], v)
      ensures u == v
    {
      if u >= 1 && v >= 1 {
        assert BlockInPlace(c, |hs|, hs[t], u) && BlockInPlace(c, |hs|, hs[t], v);
        BlockHashFixesView(c, hs[t].chain[u - 1], hs[t].chain[v - 1]);
      }
    }
  }

  lemma NoClashBefore(c: Crypto, hs: seq<History>, hs': seq<History>)
    requires GrowAll(hs, hs') && NoClash(c, hs')
    ensures NoClash(c, hs)
  {
    hide BlockClash, Collides;
    forall t, u, v | 0 <= t < |hs| && 0 <= u < |hs[t].chain| && 0 <= v < |hs[t].chain|
      ensures !Collides(c.h, BlockClash(c, hs[t].chain[u], hs[t].chain[v]))
    {
      assert hs[t].chain[u] == hs'[t].chain[u] && hs[t].chain[v] == hs'[t].chain[v];
    }
  }

  // ----- runs -----

  lemma DriveGrows(c: Crypto, names: seq<Bytes>, l: Leader, inp: Input)
    requires l.id < |names| && DriveIsDefined(c, |names|, l)
    ensures Grows(l.history, Drive(c, names, l, inp).history)
  {
    hide MakeBlock, MakeMessage, Redo, ProposeIsDefined, CommunicateIsDefined, IsComplete, ExecutionOutputs, ExecutedAfter;
  }

  lemma ApplyGrows(c: Crypto, names: seq<Bytes>, g: Global, e: Event)
    requires e.i < |g.leaders| && NoPanic(c, names, g, e)
    ensures GrowAll(Histories(g), Histories(Apply(c, names, g, e)))
  {
    hide Drive, DriveIsDefined, Sent, Refused, Grows;
    forall h: History ensures Grows(h, h) { GrowsRefl(h); }
    if !IsRefused(c, names, g, e) {
      DriveGrows(c, names, Entering(g, e), e.inp);
    }
  }

  lemma GrowsRefl(h: History)
    ensures Grows(h, h)
  {
  }

  /** The invariant holds in every state that a run reaches. */
  lemma {:induction false} EveryRunIsInOrder(c: Crypto, names: seq<Bytes>, inputs: seq<Input>, es: seq<Event>, g: Global)
    requires InputsFit(names, inputs) && Reaches(c, names, inputs, es, g) && NoClash(c, Histories(g))
    ensures Inv(c, names, g) && AtRest(g)
    decreases |es|
  {
    hide Inv, AtRest, NoClash, VoteFits, NoPanic, Apply;
    if es == [] {
      InitKeepsInv(c, names, inputs);
    } else {
      var before, e := Front(es), Last(es);
      var g0 :| Reaches(c, names, inputs, before, g0) && Takes(c, names, g0, e, g);
      EnabledInRange(c, names, g0, e);
      ApplyGrows(c, names, g0, e);
      NoClashBefore(c, Histories(g0), Histories(g));
      EveryRunIsInOrder(c, names, inputs, before, g0);
      InvIsAligned(c, names, g0);
      NoClashMeansNoCollision(c, Histories(g0));
      ApplyKeepsInv(c, names, g0, e);
    }
  }

  lemma EnabledInRange(c: Crypto, names: seq<Bytes>, g: Global, e: Event)
    requires Enabled(c, names, g, e)
    ensures e.i < |g.leaders|
  {
  }

  lemma InvIsAligned(c: Crypto, names: seq<Bytes>, g: Global)
    requires Inv(c, names, g)
    ensures Aligned(c, Histories(g)) && |Histories(g)| == |names| == |g.leaders|
  {
  }

  /** No leader ever panics: whatever can happen next, the handler finds every block, message and proof it needs. */
  lemma NoRunPanics(c: Crypto, names: seq<Bytes>, inputs: seq<Input>, es: seq<Event>, g: Global, e: Event)
    requires InputsFit(names, inputs) && Reaches(c, names, inputs, es, g) && NoClash(c, Histories(g)) && Enabled(c, names, g, e)
    ensures e.i < |g.leaders| && NoPanic(c, names, g, e)
    ensures Reaches(c, names, inputs, es + [e], Apply(c, names, g, e))
  {
    hide Inv, AtRest, NoClash, VoteFits, NoPanic, Apply;
    EnabledInRange(c, names, g, e);
    EveryRunIsInOrder(c, names, inputs, es, g);
    InvIsAligned(c, names, g);
    NoClashMeansNoCollision(c, Histories(g));
    ApplyKeepsInv(c, names, g, e);
    var es' := es + [e];
    assert Front(es') == es && Last(es') == e;
    assert Takes(c, names, g, Last(es'), Apply(c, names, g, e));
  }

  /** Lockstep: no two leaders are ever more than one view apart. */
  lemma LeadersStayTogether(c: Crypto, names: seq<Bytes>, inputs: seq<Input>, es: seq<Event>, g: Global, s: nat, t: nat)
    requires InputsFit(names, inputs) && Reaches(c, names, inputs, es, g) && NoClash(c, Histories(g))
    requires s < |g.leaders| && t < |g.leaders|
    ensures g.leaders[s].view <= g.leaders[t].view + 1
  {
    hide Inv, Reaches, NoClash, Aligned, IsMessage;
    EveryRunIsInOrder(c, names, inputs, es, g);
    LeaderFacts(c, names, g, s);
    LeaderFacts(c, names, g, t);
    assert HoldsFrom(c, Histories(g), g.leaders[s], t);
  }

  /** Leader i has left view v behind only with the view v message of every shard, and nothing else. */
  lemma BarrierHolds(c: Crypto, names: seq<Bytes>, inputs: seq<Input>, es: seq<Event>, g: Global, e: Event)
    requires InputsFit(names, inputs) && Reaches(c, names, inputs, es, g) && NoClash(c, Histories(g)) && Enabled(c, names, g, e)
    requires e.i < |g.leaders| && NoPanic(c, names, g, e)
    ensures var g' := Apply(c, names, g, e);
            var (l, l') := (g.leaders[e.i], g'.leaders[e.i]);
            && (l'.view == l.view || l'.view == l.view + 1)
            && (l'.view == l.view + 1 ==>
                  l'.j1Finished.Keys == Ids(|names|) &&
                  forall t :: 0 <= t < |names| ==> IsMessage(c, Histories(g'), t, l.view, e.i, l'.j1Finished[t]))
  {
    hide Inv, AtRest, NoClash, Reaches, IsMessage, LocalOk, Held, Aligned, IsComplete, ProposeIsDefined, MakeBlock, Propose, Accept,
      Communicate, CommunicateIsDefined, Packets, VoteFits, Refused, NoCollision, GrowAll;
    EveryRunIsInOrder(c, names, inputs, es, g);
    InvIsAligned(c, names, g);
    NoClashMeansNoCollision(c, Histories(g));
    LeaderFacts(c, names, g, e.i);
    var i, l := e.i, g.leaders[e.i];
    if IsRefused(c, names, g, e) {
    } else if e.Quorum? {
      var l1 := l.(agg := Some(e.vote));
      CommunicateKeepsInv(c, names, g, i, e.vote);
      CommunicateStep(c, |names|, l1);
      LeavesWithAll(c, names, Put(g, i, Communicate(c, |names|, l1), Packets(c, |names|, l1)), i, e.inp);
      PutTwice(g, i, Communicate(c, |names|, l1), Packets(c, |names|, l1), DriveWait(c, names, Communicate(c, |names|, l1), e.inp));
    } else {
      AcceptKeepsInv(c, names, g, i, e.msg);
      AcceptKeepsLocal(l, e.msg);
      if l.step == LeaderVote {
        VotingLeader(Accept(l, e.msg));
      } else {
        LeavesWithAll(c, names, Put(g, i, Accept(l, e.msg), {}), i, e.inp);
        PutTwice(g, i, Accept(l, e.msg), {}, DriveWait(c, names, Accept(l, e.msg), e.inp));
      }
    }
  }

  lemma LeavesWithAll(c: Crypto, names: seq<Bytes>, g: Global, i: nat, inp: Input)
    requires Inv(c, names, g) && i < |g.leaders| && InputFits(names, inp) && g.leaders[i].step == LeaderWait
    requires g.leaders[i].id < |names| && (IsComplete(g.leaders[i]) ==> ProposeIsDefined(|names|, g.leaders[i]))
    ensures var l := g.leaders[i];
            var l' := DriveWait(c, names, l, inp);
            && (l'.view == l.view || l'.view == l.view + 1)
            && (l'.view == l.view + 1 ==>
                  l'.j1Finished.Keys == Ids(|names|) &&
                  forall t :: 0 <= t < |names| ==> IsMessage(c, Histories(Put(g, i, l', {})), t, l.view, i, l'.j1Finished[t]))
  {
    hide Inv, IsMessage, LocalOk, Held, Aligned, IsComplete, ProposeIsDefined, Propose, NextBlock, GrowAll, Grows;
    LeaderFacts(c, names, g, i);
    var hs, l := Histories(g), g.leaders[i];
    var l' := DriveWait(c, names, l, inp);
    if IsComplete(l) {
      ProposeStep(c, names, l, inp);
      assert ReadyToPropose(c, names, hs, l, inp);
      ProposeKeepsLocal(c, names, hs, l, inp);
      AfterBlockGrows(c, names, hs, l, inp);
      HistoriesOfPut(g, i, l', {});
      CompleteHoldsAll(c, hs, l, i);
      forall t | 0 <= t < |names| ensures t in l.finished && IsMessage(c, Histories(Put(g, i, l', {})), t, l.view, i, l.finished[t]) {
        CompleteHoldsAll(c, hs, l, t);
        IsMessageStable(c, hs, Histories(Put(g, i, l', {})), t, l.view, i, l.finished[t]);
      }
    }
  }

  // ----- progress -----

  /** A leader with the least view. */
  function Slowest(leaders: seq<Leader>): (i: nat)
    requires leaders != []
    ensures i < |leaders| && forall j :: 0 <= j < |leaders| ==> leaders[i].view <= leaders[j].view
  {
    if |leaders| == 1 then 0
    else
      var k := Slowest(leaders[..|leaders| - 1]);
      if leaders[|leaders| - 1].view < leaders[k].view then |leaders| - 1 else k
  }

  /** A packet for leader i that it takes when it comes, and that fills a place still empty. */
  predicate Useful(c: Crypto, names: seq<Bytes>, g: Global, i: nat, m: CrossShardMessage) {
    && i < |g.leaders| && Packet(i, m) in g.net
    && !Refused(c, |names|, g.leaders[i], m)
    && m.source !in g.leaders[i].finished && m.source in Accept(g.leaders[i], m).finished
  }

  /** A message of this view that is sent, and not held, is on its way; it is accepted and used. */
  lemma SentIsUseful(c: Crypto, names: seq<Bytes>, g: Global, i: nat, t: nat)
    requires Inv(c, names, g) && NoCollision(c, Histories(g)) && i < |g.leaders| && t < |g.leaders| && t != i
    requires g.leaders[i].step == LeaderWait && t !in g.leaders[i].finished
    requires g.leaders[i].view <= |Histories(g)[t].votes|
    ensures exists m :: Useful(c, names, g, i, m)
  {
    hide Inv, Aligned, LocalOk, MessageAt, ProofReady, IsMessage, ValidMessage, StoredOk, LastHash, HashAt, NetOk, LeadersOk;
    var hs, l := Histories(g), g.leaders[i];
    LeaderFacts(c, names, g, i);
    assert l.view >= 1 by { assert HoldsFrom(c, hs, l, t); }
    MessagesAreValid(c, hs, t, l.view, i);
    var m := MessageAt(c, hs[t], t, l.view, i);
    assert Broadcast(c, hs, g.net, t, l.view, i) by { SentIsBroadcast(c, names, g, t, l.view, i); }
    assert IsMessage(c, hs, t, l.view, i, m) by { IsItself(c, hs, t, l.view, i); }
    MessageLinks(c, hs, t, l.view, i, m);
    assert HoldsFrom(c, hs, l, t) && CaughtUp(c, hs, l, t);
    assert Useful(c, names, g, i, m);
  }

  lemma SentIsBroadcast(c: Crypto, names: seq<Bytes>, g: Global, t: nat, w: nat, dest: nat)
    requires Inv(c, names, g) && t < |g.leaders|
    ensures Broadcast(c, Histories(g), g.net, t, w, dest)
  {
    hide Aligned, LeadersOk, NetOk, Broadcast;
  }

  lemma IsItself(c: Crypto, hs: seq<History>, t: nat, w: nat, dest: nat)
    requires t < |hs| && HasMessage(hs[t], w) && ProofReady(hs[t], w, dest)
    ensures IsMessage(c, hs, t, w, dest, MessageAt(c, hs[t], t, w, dest))
  {
  }

  lemma Missing<T>(a: set<T>, b: set<T>) returns (x: T)
    requires a <= b && |a| != |b|
    ensures x in b && x !in a
  {
    assert a != b;
    x :| x in b && x !in a;
  }

  lemma IncompleteLacks(l: Leader, n: nat) returns (t: nat)
    requires l.lastHash.Keys == Ids(n) && l.finished.Keys <= Ids(n) && !IsComplete(l)
    ensures t < n && t !in l.finished
  {
    assert |l.finished| == |l.finished.Keys| && |l.lastHash| == |l.lastHash.Keys|;
    t := Missing(l.finished.Keys, Ids(n));
  }

  /** Every run can go on: while no leader waits for a quorum, some packet on its way fills an empty place. */
  lemma SomeoneCanMove(c: Crypto, names: seq<Bytes>, inputs: seq<Input>, es: seq<Event>, g: Global)
    requires InputsFit(names, inputs) && Reaches(c, names, inputs, es, g) && NoClash(c, Histories(g)) && |names| >= 1
    requires forall i :: 0 <= i < |g.leaders| ==> g.leaders[i].step == LeaderWait
    ensures exists i: nat, m :: Useful(c, names, g, i, m)
  {
    hide Inv, Reaches, NoClash, NoCollision, Aligned, IsComplete, Useful, HoldsFrom, StoredOk, CaughtUp;
    EveryRunIsInOrder(c, names, inputs, es, g);
    InvIsAligned(c, names, g);
    NoClashMeansNoCollision(c, Histories(g));
    var i := Slowest(g.leaders);
    LeaderFacts(c, names, g, i);
    var t := IncompleteLacks(g.leaders[i], |names|);
    LeaderFacts(c, names, g, t);
    SentIsUseful(c, names, g, i, t);
  }

  /** Every packet of every run passes the checks on messages; its receiver refuses it only as a duplicate. */
  lemma PacketsAreValid(c: Crypto, names: seq<Bytes>, inputs: seq<Input>, es: seq<Event>, g: Global, p: Packet)
    requires InputsFit(names, inputs) && Reaches(c, names, inputs, es, g) && NoClash(c, Histories(g)) && p in g.net
    ensures ValidMessage(c, p.msg) && p.msg.source < |names| && p.dest < |g.leaders| && p.msg.source != p.dest
    ensures Refused(c, |names|, g.leaders[p.dest], p.msg) <==> (p.msg.source, LastHash(p.msg.aggVote)) in g.leaders[p.dest].store
  {
    hide Inv, Reaches, NoClash, Aligned, ValidMessage, LastHash, IsMessage;
    EveryRunIsInOrder(c, names, inputs, es, g);
    InvIsAligned(c, names, g);
    var t, w := PacketOrigin(c, names, g, p);
    IsMessageMeans(c, Histories(g), t, w, p.dest, p.msg);
    MessagesAreValid(c, Histories(g), t, w, p.dest);
  }

  lemma PacketOrigin(c: Crypto, names: seq<Bytes>, g: Global, p: Packet) returns (t: nat, w: nat)
    requires Inv(c, names, g) && p in g.net
    ensures t != p.dest && p.dest < |g.leaders| && IsMessage(c, Histories(g), t, w, p.dest, p.msg)
  {
    hide Aligned, LeadersOk, NetFull, IsMessage;
    t, w :| t != p.dest && p.dest < |Histories(g)| && IsMessage(c, Histories(g), t, w, p.dest, p.msg);
  }

  lemma IsMessageMeans(c: Crypto, hs: seq<History>, t: nat, w: nat, dest: nat, m: CrossShardMessage)
    requires IsMessage(c, hs, t, w, dest, m)
    ensures t < |hs| && 1 <= w <= |hs[t].votes| && HasMessage(hs[t], w) && ProofReady(hs[t], w, dest) && m == MessageAt(c, hs[t], t, w, dest) && m.source == t
  {
  }

  // ----- what the chains say -----

  /** Whatever two shards' blocks of the same view certify, they certify the same blocks: block v of every shard
      commits block v - 4 of every shard, and none is disputed. */
  lemma RunsCertifyOneHistory(c: Crypto, names: seq<Bytes>, inputs: seq<Input>, es: seq<Event>, g: Global, s: nat, v: nat, t: nat)
    requires InputsFit(names, inputs) && Reaches(c, names, inputs, es, g) && NoClash(c, Histories(g))
    requires s < |g.leaders| && t < |g.leaders| && 5 <= v <= g.leaders[s].view
    ensures var (chain, other) := (g.leaders[s].history.chain, g.leaders[t].history.chain);
            && v <= |chain| && v - 4 <= |other|
            && FirstIntention(chain[v - 1].cc, t) == BlockHash(c, other[v - 5])
            && !Disputed(chain[v - 1].cc, t)
  {
    hide Inv, Reaches, NoClash, FirstIntention, Disputed, Aligned, Held, BlockHash;
    EveryRunIsInOrder(c, names, inputs, es, g);
    LeaderFacts(c, names, g, s);
    LeaderFacts(c, names, g, t);
    CertificatesAgree(c, Histories(g), s, v, t);
  }

  /** Every block of every run passes ValidateBasic and verify_block of a validator that has the blocks before it. */
  lemma RunsMakeValidBlocks(c: Crypto, names: seq<Bytes>, inputs: seq<Input>, es: seq<Event>, g: Global, s: nat, v: nat)
    requires InputsFit(names, inputs) && Reaches(c, names, inputs, es, g) && NoClash(c, Histories(g))
    requires s < |g.leaders| && 1 <= v <= g.leaders[s].view
    ensures var chain := g.leaders[s].history.chain;
            && v <= |chain|
            && ValidateIsDefined(chain[v - 1]) && ValidBlock(c, chain[v - 1])
            && VerifyIsDefined(chain[v - 1]) && VerifyBlock(c, |names|, Window(chain[..v - 1]), chain[v - 1])
  {
    hide Inv, Reaches, NoClash, Aligned, Held, ValidBlock, ValidateIsDefined, VerifyBlock, VerifyIsDefined, Window;
    EveryRunIsInOrder(c, names, inputs, es, g);
    LeaderFacts(c, names, g, s);
    BlocksAreValid(c, Histories(g), s, v);
    BlocksPassVerification(c, Histories(g), s, v);
  }
}
