/** Cross-shard blocks on an I shard: accepted with their keys locked, and later committed or aborted, while other
    blocks go on (pyramid/abci/minibank/application.go). */
module BankTwoPhase {
  import opened Bytes
  import opened Keys
  import opened Bank
  import opened BankReplay

  /** The store, and the locked keys with the values they are to get. */
  datatype State = State(store: Balances, locks: Balances)

  predicate IsBlock(b: CrossBlock) {
    |b.txs| <= |b.datas|
  }

  function Only(w: Balances, ks: set<Key>): (r: Balances)
    ensures r.Keys == w.Keys * ks && forall k :: k in r ==> r[k] == w[k]
  {
    map k | k in w && k in ks :: w[k]
  }

  /** The keys that the shard is responsible for. */
  function Here(ks: set<Key>, keys: Key -> bool): (r: set<Key>)
    ensures forall k :: k in r <==> k in ks && keys(k)
  {
    set k | k in ks && keys(k)
  }

  /** What accepting the block locks: the values that its successful transactions write to keys of this shard. */
  function NewLocks(s: State, b: CrossBlock, keys: Key -> bool): Balances
    requires IsBlock(b)
  {
    var w := Replay(s.locks.Keys, b.txs, b.datas);
    Only(w, Here(w.Keys, keys)) - s.locks.Keys
  }

  /** AcceptCrossShard for a block that is to be executed. */
  function Accept(s: State, b: CrossBlock, keys: Key -> bool): State
    requires IsBlock(b)
  {
    s.(locks := s.locks + NewLocks(s, b, keys))
  }

  /** The locks on keys of the block; those of transactions that failed are looked at too. */
  function HeldFor(s: State, b: CrossBlock, keys: Key -> bool): Balances {
    Only(s.locks, Here(BlockKeys(b.txs), keys))
  }

  function Commit(s: State, b: CrossBlock, keys: Key -> bool): State {
    State(s.store + HeldFor(s, b, keys), s.locks - HeldFor(s, b, keys).Keys)
  }

  function Abort(s: State, b: CrossBlock, keys: Key -> bool): State {
    State(s.store, s.locks - HeldFor(s, b, keys).Keys)
  }

  function Inner(s: State, keys: Key -> bool, txs: seq<Tx>): State {
    s.(store := RunBlock(s.store, keys, s.locks.Keys, txs))
  }

  datatype Event =
    | InnerBlock(keys: Key -> bool, txs: seq<Tx>)
    | Accepted(block: CrossBlock, keys: Key -> bool)
    | Committed(block: CrossBlock, keys: Key -> bool)
    | Aborted(block: CrossBlock, keys: Key -> bool)

  predicate IsEvent(e: Event) {
    e.Accepted? ==> IsBlock(e.block)
  }

  function Apply(s: State, e: Event): State
    requires IsEvent(e)
  {
    match e
    case InnerBlock(keys, txs) => Inner(s, keys, txs)
    case Accepted(b, keys) => Accept(s, b, keys)
    case Committed(b, keys) => Commit(s, b, keys)
    case Aborted(b, keys) => Abort(s, b, keys)
  }

  predicate AreEvents(es: seq<Event>) {
    forall i :: 0 <= i < |es| ==> IsEvent(es[i])
  }

  function Run(s: State, es: seq<Event>): State
    requires AreEvents(es)
    decreases |es|
  {
    if es == [] then s else assert IsEvent(es[|es| - 1]); Apply(Run(s, es[..|es| - 1]), es[|es| - 1])
  }

  /** No cross-shard block of the event shares a key with ks. */
  predicate IsApart(e: Event, ks: set<Key>) {
    !e.InnerBlock? ==> BlockKeys(e.block.txs) !! ks
  }

  predicate AreApart(es: seq<Event>, ks: set<Key>) {
    forall i :: 0 <= i < |es| ==> IsApart(es[i], ks)
  }

  /** The transaction, unless it touches ks. */
  function StripTx(tx: Tx, ks: set<Key>): Tx {
    if tx.Some? && !(KeysOf(tx.value) !! ks) then None else tx
  }

  function Strip(txs: seq<Tx>, ks: set<Key>): (r: seq<Tx>)
    ensures |r| == |txs| && forall i :: 0 <= i < |txs| ==> r[i] == StripTx(txs[i], ks)
  {
    seq(|txs|, i requires 0 <= i < |txs| => StripTx(txs[i], ks))
  }

  function StripEvent(e: Event, ks: set<Key>): (r: Event)
    ensures IsEvent(e) ==> IsEvent(r)
  {
    if e.InnerBlock? then InnerBlock(e.keys, Strip(e.txs, ks)) else e
  }

  /** The events without the inner transactions that touch ks. */
  function StripAll(es: seq<Event>, ks: set<Key>): (r: seq<Event>)
    ensures |r| == |es| && (forall i :: 0 <= i < |es| ==> r[i] == StripEvent(es[i], ks))
    ensures AreEvents(es) ==> AreEvents(r)
  {
    seq(|es|, i requires 0 <= i < |es| => StripEvent(es[i], ks))
  }

  // ----- locks only stop what touches them -----

  lemma LockedFails(src: Source, locks: set<Key>, ks: set<Key>, tx: Tx)
    ensures TxSucceeds(src, locks + ks, tx) <==> TxSucceeds(src, locks, StripTx(tx, ks))
    ensures TxSucceeds(src, locks + ks, tx) ==> StripTx(tx, ks) == tx
  {
    hide IsValid, Debited, MayWrite;
    if tx.Some? {
      var t := tx.value;
      if KeysOf(t) !! ks {
        assert forall i :: 0 <= i < |t.from| ==> t.from[i] in KeysOf(t);
        assert forall i :: 0 <= i < |t.to| ==> t.to[i] in KeysOf(t);
      } else {
        var k :| k in KeysOf(t) && k in ks;
        if k in t.from {
          var i :| 0 <= i < |t.from| && t.from[i] == k;
        } else {
          var i :| 0 <= i < |t.to| && t.to[i] == k;
        }
      }
    }
  }

  lemma {:induction false} InnerIsStripped(b: Balances, keys: Key -> bool, locks: set<Key>, ks: set<Key>, txs: seq<Tx>)
    ensures RunBlock(b, keys, locks + ks, txs) == RunBlock(b, keys, locks, Strip(txs, ks))
    decreases |txs|
  {
    hide TxSucceeds, Writes, Strip, StripTx;
    if txs != [] {
      var n := |txs| - 1;
      InnerIsStripped(b, keys, locks, ks, txs[..n]);
      assert Strip(txs, ks)[..n] == Strip(txs[..n], ks);
      LockedFails(Ranged(RunBlock(b, keys, locks + ks, txs[..n]), keys), locks, ks, txs[n]);
    }
  }

  lemma SameWithoutLocks(src: Source, locks: set<Key>, ks: set<Key>, tx: Tx)
    requires tx.Some? ==> KeysOf(tx.value) !! ks
    ensures TxSucceeds(src, locks + ks, tx) <==> TxSucceeds(src, locks, tx)
  {
    LockedFails(src, locks, ks, tx);
  }

  lemma {:induction false} ReplayApart(locks: set<Key>, ks: set<Key>, txs: seq<Tx>, ds: seq<Data>)
    requires |txs| <= |ds| && BlockKeys(txs) !! ks
    ensures Replay(locks + ks, txs, ds) == Replay(locks, txs, ds)
    decreases |txs|
  {
    hide TxSucceeds, Writes;
    if txs != [] {
      var n := |txs| - 1;
      ReplayApart(locks, ks, txs[..n], ds);
      SameWithoutLocks(Recorded(ds[n].readSet), locks, ks, txs[n]);
    }
  }

  lemma {:induction false} ReplayKeys(locks: set<Key>, txs: seq<Tx>, ds: seq<Data>)
    requires |txs| <= |ds|
    ensures Replay(locks, txs, ds).Keys <= BlockKeys(txs)
    decreases |txs|
  {
    hide Writes;
    if txs != [] {
      var n := |txs| - 1;
      ReplayKeys(locks, txs[..n], ds);
      if Replays(locks, txs[n], ds[n]) { WritesKeys(Recorded(ds[n].readSet), txs[n].value); }
    }
  }

  /** s with the locks w as well. */
  function Plus(s: State, w: Balances): State {
    s.(locks := s.locks + w)
  }

  lemma AcceptApart(s: State, w: Balances, ks: set<Key>, b: CrossBlock, keys: Key -> bool)
    requires IsBlock(b) && BlockKeys(b.txs) !! ks && w.Keys <= ks && s.locks.Keys !! ks
    ensures Accept(Plus(s, w), b, keys) == Plus(Accept(s, b, keys), w)
    ensures Accept(s, b, keys).locks.Keys !! ks
  {
    hide Replay, BlockKeys, Only, Here;
    ReplayApart(s.locks.Keys, w.Keys, b.txs, b.datas);
    ReplayKeys(s.locks.Keys, b.txs, b.datas);
    assert Plus(s, w).locks.Keys == s.locks.Keys + w.Keys;
    assert NewLocks(Plus(s, w), b, keys) == NewLocks(s, b, keys);
    assert (s.locks + w) + NewLocks(s, b, keys) == (s.locks + NewLocks(s, b, keys)) + w;
  }

  lemma DecideApart(s: State, w: Balances, ks: set<Key>, b: CrossBlock, keys: Key -> bool)
    requires BlockKeys(b.txs) !! ks && w.Keys <= ks && s.locks.Keys !! ks
    ensures Commit(Plus(s, w), b, keys) == Plus(Commit(s, b, keys), w)
    ensures Abort(Plus(s, w), b, keys) == Plus(Abort(s, b, keys), w)
    ensures Commit(s, b, keys).locks.Keys !! ks && Abort(s, b, keys).locks.Keys !! ks
  {
    hide BlockKeys, Only, Here;
    assert HeldFor(Plus(s, w), b, keys) == HeldFor(s, b, keys);
    assert (s.locks + w) - HeldFor(s, b, keys).Keys == (s.locks - HeldFor(s, b, keys).Keys) + w;
  }

  lemma ApplyApart(s: State, w: Balances, ks: set<Key>, e: Event)
    requires IsEvent(e) && IsApart(e, ks) && w.Keys <= ks && s.locks.Keys !! ks
    ensures Apply(Plus(s, w), e) == Plus(Apply(s, StripEvent(e, w.Keys)), w)
    ensures Apply(s, StripEvent(e, w.Keys)).locks.Keys !! ks
  {
    hide RunBlock, BlockKeys, Strip, Commit, Abort, Accept;
    match e
    case InnerBlock(keys, txs) =>
      InnerIsStripped(s.store, keys, s.locks.Keys, w.Keys, txs);
      assert Plus(s, w).locks.Keys == s.locks.Keys + w.Keys;
    case Accepted(b, keys) => AcceptApart(s, w, ks, b, keys);
    case Committed(b, keys) => DecideApart(s, w, ks, b, keys);
    case Aborted(b, keys) => DecideApart(s, w, ks, b, keys);
  }

  /** While a block is pending, everything else goes on as if it were not there, except that transactions that touch
      its locked keys fail. */
  lemma {:induction false} RunApart(s: State, w: Balances, ks: set<Key>, es: seq<Event>)
    requires AreEvents(es) && AreApart(es, ks) && w.Keys <= ks && s.locks.Keys !! ks
    ensures Run(Plus(s, w), es) == Plus(Run(s, StripAll(es, w.Keys)), w)
    ensures Run(s, StripAll(es, w.Keys)).locks.Keys !! ks
    decreases |es|
  {
    hide Apply, StripEvent, Plus, IsEvent, IsApart, StripAll;
    if es != [] {
      var n := |es| - 1;
      RunApart(s, w, ks, es[..n]);
      var es' := StripAll(es, w.Keys);
      assert es'[..n] == StripAll(es[..n], w.Keys) && es'[n] == StripEvent(es[n], w.Keys);
      assert IsEvent(es[n]) && IsApart(es[n], ks);
      ApplyApart(Run(s, es'[..n]), w, ks, es[n]);
    } else {
      assert StripAll(es, w.Keys) == [];
    }
  }

  /** The decision on a pending block, whatever happened since it was accepted: abort leaves what would be there
      without it; commit writes the values computed at acceptance and nothing else; the locks are gone either way. */
  lemma DecisionIsIsolated(s: State, b: CrossBlock, keys: Key -> bool, es: seq<Event>)
    requires IsBlock(b) && AreEvents(es) && AreApart(es, BlockKeys(b.txs)) && s.locks.Keys !! BlockKeys(b.txs)
    ensures var w := NewLocks(s, b, keys);
            var (pending, without) := (Run(Accept(s, b, keys), es), Run(s, StripAll(es, w.Keys)));
            && Abort(pending, b, keys) == without
            && Commit(pending, b, keys) == without.(store := without.store + w)
            && without.locks.Keys !! BlockKeys(b.txs)
  {
    hide Run, Replay, StripAll, BlockKeys;
    var (w, ks) := (NewLocks(s, b, keys), BlockKeys(b.txs));
    ReplayKeys(s.locks.Keys, b.txs, b.datas);
    RunApart(s, w, ks, es);
    var (pending, without) := (Run(Accept(s, b, keys), es), Run(s, StripAll(es, w.Keys)));
    assert pending == Plus(without, w);
    assert HeldFor(pending, b, keys) == w;
    assert (without.locks + w) - w.Keys == without.locks;
  }

  // ----- the commit might as well have happened at once -----

  lemma StepCommutes(b: Balances, keys: Key -> bool, locks: set<Key>, w: Balances, tx: Tx)
    requires tx.Some? ==> KeysOf(tx.value) !! w.Keys
    ensures Step(b + w, keys, locks, tx) == Step(b, keys, locks, tx) + w
  {
    hide Writes, KeysOf;
    if tx.Some? {
      SameOutcome(b, keys, locks, w, tx.value);
      if Succeeds(Ranged(b, keys), locks, tx.value) {
        WritesKeys(Ranged(b, keys), tx.value);
        var v := Writes(Ranged(b, keys), tx.value);
        assert (b + w) + v == (b + v) + w;
      }
    }
  }

  lemma SameOutcome(b: Balances, keys: Key -> bool, locks: set<Key>, w: Balances, tx: Transfer)
    requires KeysOf(tx) !! w.Keys
    ensures Succeeds(Ranged(b + w, keys), locks, tx) <==> Succeeds(Ranged(b, keys), locks, tx)
    ensures Succeeds(Ranged(b, keys), locks, tx) ==>
              && Succeeds(Ranged(b, keys), {}, tx) && Succeeds(Ranged(b + w, keys), {}, tx)
              && Writes(Ranged(b + w, keys), tx) == Writes(Ranged(b, keys), tx)
  {
    hide Debited, Credited, IsValid, CreditWrites;
    var (s, t) := (Ranged(b, keys), Ranged(b + w, keys));
    forall k | k in KeysOf(tx) ensures Read(s, k) == Read(t, k) { assert k !in w; }
    if IsValid(tx) {
      ValidShape(tx);
      forall i | 0 <= i < |tx.from| ensures Debited(s, tx.from[i], tx.fromMoney[i]) == Debited(t, tx.from[i], tx.fromMoney[i]) {
        SameDebit(s, t, tx, i);
      }
      if Succeeds(s, locks, tx) { SameCredits(s, t, tx, |tx.to|); }
    }
  }

  lemma {:induction false} BlockCommutes(b: Balances, keys: Key -> bool, locks: set<Key>, w: Balances, txs: seq<Tx>)
    ensures RunBlock(b + w, keys, locks, Strip(txs, w.Keys)) == RunBlock(b, keys, locks, Strip(txs, w.Keys)) + w
    decreases |txs|
  {
    hide Step, KeysOf, Strip;
    if txs != [] {
      var n := |txs| - 1;
      BlockCommutes(b, keys, locks, w, txs[..n]);
      var ts := Strip(txs, w.Keys);
      assert ts[..n] == Strip(txs[..n], w.Keys);
      StepCommutes(RunBlock(b, keys, locks, ts[..n]), keys, locks, w, ts[n]);
    } else {
      assert Strip(txs, w.Keys) == [];
    }
  }

  /** s with w written to its store. */
  function Over(s: State, w: Balances): State {
    s.(store := s.store + w)
  }

  lemma ApplyCommutes(s: State, w: Balances, ks: set<Key>, e: Event)
    requires IsEvent(e) && IsApart(e, ks) && w.Keys <= ks
    ensures Apply(Over(s, w), StripEvent(e, w.Keys)) == Over(Apply(s, StripEvent(e, w.Keys)), w)
  {
    hide RunBlock, Replay, BlockKeys, Strip;
    match e
    case InnerBlock(keys, txs) => BlockCommutes(s.store, keys, s.locks.Keys, w, txs);
    case Accepted(b, keys) =>
    case Committed(b, keys) =>
      var h := HeldFor(s, b, keys);
      assert HeldFor(Over(s, w), b, keys) == h;
      assert (s.store + w) + h == (s.store + h) + w;
    case Aborted(b, keys) => assert HeldFor(Over(s, w), b, keys) == HeldFor(s, b, keys);
  }

  lemma {:induction false} RunCommutes(s: State, w: Balances, ks: set<Key>, es: seq<Event>)
    requires AreEvents(es) && AreApart(es, ks) && w.Keys <= ks
    ensures Run(Over(s, w), StripAll(es, w.Keys)) == Over(Run(s, StripAll(es, w.Keys)), w)
    decreases |es|
  {
    hide Apply, StripEvent, Over, IsEvent, IsApart, StripAll;
    if es != [] {
      var n := |es| - 1;
      RunCommutes(s, w, ks, es[..n]);
      var es' := StripAll(es, w.Keys);
      assert es'[..n] == StripAll(es[..n], w.Keys) && es'[n] == StripEvent(es[n], w.Keys);
      assert IsEvent(es[n]) && IsApart(es[n], ks);
      ApplyCommutes(Run(s, es'[..n]), w, ks, es[n]);
    } else {
      assert StripAll(es, w.Keys) == [];
    }
  }

  /** Accepting, going on and committing is the same as writing the block's values at once and then going on without
      the transactions that touch its locked keys. */
  lemma CommitIsAtomic(s: State, b: CrossBlock, keys: Key -> bool, es: seq<Event>)
    requires IsBlock(b) && AreEvents(es) && AreApart(es, BlockKeys(b.txs)) && s.locks.Keys !! BlockKeys(b.txs)
    ensures var w := NewLocks(s, b, keys);
            Commit(Run(Accept(s, b, keys), es), b, keys) == Run(s.(store := s.store + w), StripAll(es, w.Keys))
  {
    hide Run, StripAll, BlockKeys, Replay, Commit, Accept;
    var w := NewLocks(s, b, keys);
    ReplayKeys(s.locks.Keys, b.txs, b.datas);
    DecisionIsIsolated(s, b, keys, es);
    RunCommutes(s, w, BlockKeys(b.txs), es);
  }

  /** The values that commit writes are those of the B shard's own execution, where the block was recorded. */
  lemma CommitWritesExecution(s: State, b: Balances, all: Key -> bool, locks: set<Key>, txs: seq<Tx>, keys: Key -> bool)
    requires s.locks.Keys !! BlockKeys(txs)
    ensures var block := CrossBlock(txs, Record(b, all, locks, txs));
            var w := Written(b, all, locks, txs);
            NewLocks(s, block, keys) == Only(w, Here(w.Keys, keys))
  {
    hide Replay, Written, Record, BlockKeys;
    var block := CrossBlock(txs, Record(b, all, locks, txs));
    ReplayIsExecution(b, all, locks, s.locks.Keys, txs);
    ReplayKeys(s.locks.Keys, txs, block.datas);
    var w := Written(b, all, locks, txs);
    assert Only(w, Here(w.Keys, keys)) - s.locks.Keys == Only(w, Here(w.Keys, keys));
  }
}
