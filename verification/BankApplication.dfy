/** The application as the program runs it (pyramid/abci/minibank/application.go). */
module BankApplication {
  import opened Bytes
  import opened Keys
  import opened Bank
  import opened BankOverlay
  import opened BankReplay
  import opened BankTwoPhase

  class Application {
    const store: Store
    var lockedKeys: Balances
    var blocks: map<Bytes, CrossBlock>
    var accepted: set<Bytes>

    ghost function Abs(): State
      reads this, store
    {
      State(store.data, lockedKeys)
    }

    constructor (store: Store)
      ensures this.store == store && Abs() == State(store.data, map[]) && blocks == map[] && accepted == {}
    {
      this.store, lockedKeys := store, map[];
      blocks, accepted := map[], {};
    }

    method Execute(tx: Tx, view: View, db: MemoryDB) returns (ok: bool)
      requires db.Valid() && db.writeBuffer == map[] && db.readBuffer == map[]
      modifies db
      ensures db.Valid() && db.Flat() == old(db.Flat())
      ensures view.RangeView? ==> forall k :: k in db.memDB ==> k in old(db.memDB) || view.keys(k)
      ensures view.CrossShardView? ==> db.memDB == old(db.memDB)
      ensures ok == TxSucceeds(SourceOf(view, db.Flat()), lockedKeys.Keys, tx)
      ensures ok ==> db.writeBuffer == Writes(SourceOf(view, db.Flat()), tx.value)
      ensures ok && view.RangeView? ==> db.readBuffer == ReadSet(db.Flat(), KeysOf(tx.value))
    {
      hide Succeeds, Writes, ReadSet, KeysOf;
      if tx.None? { return false; }
      ok := DoTransfer(lockedKeys.Keys, tx.value, view, db);
    }

    /** ExecutionInnerShard: the block runs through the buffers, and is flushed once. */
    method ExecutionInnerShard(keys: Key -> bool, txs: seq<Tx>) returns (receipts: seq<bool>)
      modifies store
      ensures Abs() == Inner(old(Abs()), keys, txs)
      ensures |receipts| == |txs| && forall i :: 0 <= i < |txs| ==>
                (receipts[i] <==> TxSucceeds(Ranged(RunBlock(old(store.data), keys, lockedKeys.Keys, txs[..i]), keys), lockedKeys.Keys, txs[i]))
    {
      hide TxSucceeds, Writes, ReadSet, KeysOf, RunBlock;
      var db: MemoryDB := new MemoryDB(store);
      var view := RangeView(keys);
      receipts := [];
      ghost var (b, locks) := (store.data, lockedKeys.Keys);
      RunNone(b, keys, locks, txs);
      for i := 0 to |txs|
        modifies db
        invariant db.Valid() && db.writeBuffer == map[] && db.readBuffer == map[] && |receipts| == i
        invariant forall k :: k in db.memDB ==> keys(k)
        invariant db.Flat() == RunBlock(b, keys, locks, txs[..i])
        invariant forall j :: 0 <= j < i ==> (receipts[j] <==> TxSucceeds(Ranged(RunBlock(b, keys, locks, txs[..j]), keys), locks, txs[j]))
      {
        RunOneMore(b, keys, locks, txs, i);
        var ok := Execute(txs[i], view, db);
        if ok { WrittenInRange(db.Flat(), keys, locks, txs[i]); }
        db.CommitWrite(ok);
        receipts := receipts + [ok];
      }
      assert txs[..|txs|] == txs;
      db.Write(keys);
    }

    /** FillData on the B shard: nothing is flushed. */
    method FillData(keys: Key -> bool, txs: seq<Tx>) returns (datas: seq<Data>)
      ensures datas == Record(store.data, keys, lockedKeys.Keys, txs)
    {
      hide Succeeds, Writes, ReadSet, KeysOf;
      var db: MemoryDB := new MemoryDB(store);
      var view := RangeView(keys);
      datas := [];
      ghost var (b, locks) := (store.data, lockedKeys.Keys);
      for i := 0 to |txs|
        modifies db
        invariant db.Valid() && db.writeBuffer == map[] && db.readBuffer == map[]
        invariant db.Flat() == RunBlock(b, keys, locks, txs[..i])
        invariant datas == Record(b, keys, locks, txs[..i])
      {
        assert txs[..i + 1][..i] == txs[..i];
        var ok := Execute(txs[i], view, db);
        var readSet: Balances := map[];
        if ok {
          readSet := db.readBuffer;
        }
        db.CommitWrite(ok);
        datas := datas + [Data(readSet, ok)];
      }
      assert txs[..|txs|] == txs;
    }

    /** The first loop of AcceptCrossShard: the writes pile up in a memory database that is never flushed. */
    method ReplayBlock(b: CrossBlock, db: MemoryDB) returns (receipts: seq<bool>)
      requires IsBlock(b) && db.Valid() && db.memDB == db.writeBuffer == db.readBuffer == map[]
      modifies db
      ensures db.Valid() && db.memDB == Replay(lockedKeys.Keys, b.txs, b.datas) && db.readBuffer == db.writeBuffer == map[]
      ensures |receipts| == |b.txs| && forall i :: 0 <= i < |b.txs| ==> (receipts[i] <==> Replays(lockedKeys.Keys, b.txs[i], b.datas[i]))
    {
      hide TxSucceeds, Writes, ReadSet, KeysOf;
      receipts := [];
      ghost var locks := lockedKeys.Keys;
      for i := 0 to |b.txs|
        invariant db.Valid() && db.writeBuffer == map[] && db.readBuffer == map[] && |receipts| == i
        invariant db.memDB == Replay(locks, b.txs[..i], b.datas)
        invariant forall j :: 0 <= j < i ==> (receipts[j] <==> Replays(locks, b.txs[j], b.datas[j]))
      {
        assert b.txs[..i + 1][..i] == b.txs[..i];
        if !b.datas[i].ok {
          receipts := receipts + [false];
          continue;
        }
        var ok := Execute(b.txs[i], CrossShardView(b.datas[i].readSet), db);
        db.CommitWrite(ok);
        receipts := receipts + [ok];
      }
      assert b.txs[..|b.txs|] == b.txs;
    }

    /** AcceptCrossShard: a block that is to be committed is replayed and takes its locks; in either case it is
        stored and counts as accepted. */
    method AcceptCrossShard(hash: Bytes, b: CrossBlock, keys: Key -> bool, ifcommit: bool) returns (receipts: seq<bool>)
      requires IsBlock(b)
      modifies this
      ensures Abs() == if ifcommit then Accept(old(Abs()), b, keys) else old(Abs())
      ensures blocks == old(blocks)[hash := b] && accepted == old(accepted) + {hash}
      ensures !ifcommit ==> receipts == []
      ensures ifcommit ==> |receipts| == |b.txs| && forall i :: 0 <= i < |b.txs| ==> (receipts[i] <==> Replays(old(lockedKeys).Keys, b.txs[i], b.datas[i]))
    {
      hide Replay, Replays, LocksAfter, NewLocks;
      receipts := [];
      if ifcommit {
        var db: MemoryDB := new MemoryDB(store);
        receipts := ReplayBlock(b, db);
        ghost var (s, w) := (Abs(), db.memDB);
        var writeSet := SuccessfulKeys(b, receipts);
        SuccessfulKeysAre(lockedKeys.Keys, b, receipts);
        AllLocked(s, b, keys);
        SetLocks(writeSet, keys, db, w);
      }
      blocks := blocks[hash := b];
      accepted := accepted + {hash};
    }

    /** Locks the keys of this shard with the values they are to get; a key that is locked already stays as it is. */
    method SetLocks(writeSet: set<Key>, keys: Key -> bool, db: MemoryDB, ghost w: Balances)
      requires db.Valid() && db.writeBuffer == map[] && db.Flat() == db.store.data + w && writeSet == w.Keys
      modifies this`lockedKeys, db
      ensures lockedKeys == LocksAfter(old(lockedKeys), w, keys, {})
    {
      hide LocksAfter;
      ghost var locks := lockedKeys;
      var todo := writeSet;
      NoneLocked(locks, w, keys);
      while todo != {}
        invariant todo <= w.Keys && db.Valid() && db.writeBuffer == map[] && db.Flat() == old(db.Flat())
        invariant lockedKeys == LocksAfter(locks, w, keys, todo)
        decreases |todo|
      {
        var k :| k in todo;
        LockOneMore(locks, w, keys, todo, k);
        todo := todo - {k};
        if keys(k) {
          var u := db.GetPlain(k);
          if k !in lockedKeys {
            lockedKeys := lockedKeys[k := u];
          }
        }
      }
    }

    /** AcceptCommitShard: each block that is known and accepted is committed or aborted, the others are skipped, and
        the writes are put in one batch. */
    method AcceptCommitShard(hashes: seq<Bytes>, commits: seq<bool>, keys: Key -> bool) returns (receipts: seq<bool>)
      requires |hashes| == |commits|
      modifies this`lockedKeys, store
      ensures Abs() == Run(old(Abs()), Decisions(blocks, accepted, hashes, commits, keys, |hashes|))
      ensures |receipts| == |hashes| && forall i :: 0 <= i < |hashes| ==> (receipts[i] <==> hashes[i] in blocks && hashes[i] in accepted && commits[i])
    {
      hide Commit, Abort, Run, Decisions;
      ghost var s := Abs();
      var batch: Balances := map[];
      receipts := [];
      NoDecisions(s, blocks, accepted, hashes, commits, keys);
      for i := 0 to |hashes|
        modifies this`lockedKeys
        invariant State(store.data + batch, lockedKeys) == Run(s, Decisions(blocks, accepted, hashes, commits, keys, i))
        invariant |receipts| == i && forall j :: 0 <= j < i ==> (receipts[j] <==> hashes[j] in blocks && hashes[j] in accepted && commits[j])
      {
        DecideOneMore(s, blocks, accepted, hashes, commits, keys, i);
        if hashes[i] !in blocks || hashes[i] !in accepted {
          receipts := receipts + [false];
          continue;
        }
        batch := Decide(blocks[hashes[i]], commits[i], keys, batch);
        receipts := receipts + [commits[i]];
      }
      store.data := store.data + batch;
    }

    /** releaseLock or undoLock for every key of the block in this shard. */
    method Decide(b: CrossBlock, commit: bool, keys: Key -> bool, batch: Balances) returns (batch': Balances)
      modifies this`lockedKeys
      ensures var s := old(State(store.data + batch, lockedKeys));
              State(store.data + batch', lockedKeys) == if commit then Commit(s, b, keys) else Abort(s, b, keys)
    {
      hide BlockKeys, Taken, Commit, Abort;
      ghost var s := State(store.data + batch, lockedKeys);
      batch' := batch;
      var todo := BlockKeys(b.txs);
      ghost var all := todo;
      NothingTaken(s.locks, batch, keys, all);
      while todo != {}
        invariant todo <= all
        invariant lockedKeys == s.locks - Taken(s.locks, keys, all - todo).Keys
        invariant batch' == if commit then batch + Taken(s.locks, keys, all - todo) else batch
        decreases |todo|
      {
        var k :| k in todo;
        TakeOneMore(s.locks, batch, keys, all, todo, k);
        todo := todo - {k};
        if keys(k) && k in lockedKeys {
          if commit { batch' := batch'[k := lockedKeys[k]]; }
          lockedKeys := lockedKeys - {k};
        }
      }
      assert all - todo == all;
      AllTaken(s, store.data, batch, b, keys);
    }
  }

  // ----- helpers -----

  lemma RunNone(b: Balances, keys: Key -> bool, locks: set<Key>, txs: seq<Tx>)
    ensures RunBlock(b, keys, locks, txs[..0]) == b
  {
  }

  lemma RunOneMore(b: Balances, keys: Key -> bool, locks: set<Key>, txs: seq<Tx>, i: nat)
    requires i < |txs|
    ensures RunBlock(b, keys, locks, txs[..i + 1]) == Step(RunBlock(b, keys, locks, txs[..i]), keys, locks, txs[i])
  {
    hide Step;
    assert txs[..i + 1][..i] == txs[..i];
  }

  lemma WrittenInRange(b: Balances, keys: Key -> bool, locks: set<Key>, tx: Tx)
    requires TxSucceeds(Ranged(b, keys), locks, tx)
    ensures forall k :: k in Writes(Ranged(b, keys), tx.value) ==> keys(k)
  {
    hide Writes, IsValid, Debited;
    WritesKeys(Ranged(b, keys), tx.value);
    var t := tx.value;
    forall k | k in KeysOf(t) ensures keys(k) {
      if k in t.from {
        var i :| 0 <= i < |t.from| && t.from[i] == k;
        assert MayWrite(Ranged(b, keys), t.from[i]);
      } else {
        var i :| 0 <= i < |t.to| && t.to[i] == k;
        assert MayWrite(Ranged(b, keys), t.to[i]);
      }
    }
  }

  /** appendRWSet over the transactions that succeeded. */
  function SuccessfulKeys(b: CrossBlock, receipts: seq<bool>): set<Key>
    requires |receipts| == |b.txs|
  {
    KeysUpTo(b.txs, receipts, |b.txs|)
  }

  function KeysUpTo(txs: seq<Tx>, receipts: seq<bool>, n: nat): set<Key>
    requires n <= |txs| == |receipts|
  {
    if n == 0 then {} else KeysUpTo(txs, receipts, n - 1) + if receipts[n - 1] && txs[n - 1].Some? then KeysOf(txs[n - 1].value) else {}
  }

  lemma {:induction false} KeysUpToAre(locks: set<Key>, b: CrossBlock, receipts: seq<bool>, n: nat)
    requires IsBlock(b) && n <= |receipts| == |b.txs|
    requires forall i :: 0 <= i < |b.txs| ==> (receipts[i] <==> Replays(locks, b.txs[i], b.datas[i]))
    ensures KeysUpTo(b.txs, receipts, n) == Replay(locks, b.txs[..n], b.datas).Keys
  {
    hide Writes, KeysOf, Succeeds;
    if n > 0 {
      KeysUpToAre(locks, b, receipts, n - 1);
      assert b.txs[..n][..n - 1] == b.txs[..n - 1];
      assert receipts[n - 1] <==> Replays(locks, b.txs[n - 1], b.datas[n - 1]);
      if receipts[n - 1] {
        SucceedsWithoutLocks(Recorded(b.datas[n - 1].readSet), locks, b.txs[n - 1].value);
        WritesKeys(Recorded(b.datas[n - 1].readSet), b.txs[n - 1].value);
      }
    }
  }

  lemma SucceedsWithoutLocks(src: Source, locks: set<Key>, tx: Transfer)
    requires Succeeds(src, locks, tx)
    ensures Succeeds(src, {}, tx)
  {
  }

  lemma SuccessfulKeysAre(locks: set<Key>, b: CrossBlock, receipts: seq<bool>)
    requires IsBlock(b) && |receipts| == |b.txs|
    requires forall i :: 0 <= i < |b.txs| ==> (receipts[i] <==> Replays(locks, b.txs[i], b.datas[i]))
    ensures SuccessfulKeys(b, receipts) == Replay(locks, b.txs, b.datas).Keys
  {
    hide Replays, Replay;
    KeysUpToAre(locks, b, receipts, |b.txs|);
    assert b.txs[..|b.txs|] == b.txs;
  }

  /** The locks once all keys of w but those in todo are done. */
  function LocksAfter(locks: Balances, w: Balances, keys: Key -> bool, todo: set<Key>): Balances {
    locks + (Only(w, Here(w.Keys - todo, keys)) - locks.Keys)
  }

  lemma NoneLocked(locks: Balances, w: Balances, keys: Key -> bool)
    ensures LocksAfter(locks, w, keys, w.Keys) == locks
  {
    hide Only, Here;
  }

  lemma AllLocked(s: State, b: CrossBlock, keys: Key -> bool)
    requires IsBlock(b)
    ensures LocksAfter(s.locks, Replay(s.locks.Keys, b.txs, b.datas), keys, {}) == Accept(s, b, keys).locks
  {
    hide Replay, Only, Here;
    var w := Replay(s.locks.Keys, b.txs, b.datas);
    assert w.Keys - {} == w.Keys;
  }

  lemma LockOneMore(locks: Balances, w: Balances, keys: Key -> bool, todo: set<Key>, k: Key)
    requires todo <= w.Keys && k in todo
    ensures var (done, done') := (LocksAfter(locks, w, keys, todo), LocksAfter(locks, w, keys, todo - {k}));
            done' == if keys(k) && k !in done then done[k := w[k]] else done
  {
    hide Only, Here;
    var (done, done') := (LocksAfter(locks, w, keys, todo), LocksAfter(locks, w, keys, todo - {k}));
    assert k in done <==> k in locks;
    assert done'.Keys == if keys(k) then done.Keys + {k} else done.Keys;
  }

  /** The locks on the keys in done that are of this shard. */
  function Taken(locks: Balances, keys: Key -> bool, done: set<Key>): Balances {
    Only(locks, Here(done, keys))
  }

  lemma NothingTaken(locks: Balances, batch: Balances, keys: Key -> bool, all: set<Key>)
    ensures locks - Taken(locks, keys, all - all).Keys == locks && batch + Taken(locks, keys, all - all) == batch
  {
    hide Only, Here;
    assert Taken(locks, keys, all - all) == map[];
  }

  lemma TakeOneMore(locks: Balances, batch: Balances, keys: Key -> bool, all: set<Key>, todo: set<Key>, k: Key)
    requires todo <= all && k in todo
    ensures var (h, h') := (Taken(locks, keys, all - todo), Taken(locks, keys, all - (todo - {k})));
            if keys(k) && k in locks - h.Keys then
              && k in locks && (locks - h.Keys)[k] == locks[k]
              && (locks - h.Keys) - {k} == locks - h'.Keys && (batch + h)[k := locks[k]] == batch + h'
            else h' == h
  {
    hide Only, Here;
    var (h, h') := (Taken(locks, keys, all - todo), Taken(locks, keys, all - (todo - {k})));
    assert k !in h;
    assert k in locks - h.Keys <==> k in locks;
    if keys(k) && k in locks {
      assert h' == h[k := locks[k]];
    } else {
      assert h' == h;
    }
  }

  lemma AllTaken(s: State, data: Balances, batch: Balances, b: CrossBlock, keys: Key -> bool)
    requires s.store == data + batch
    ensures var h := Taken(s.locks, keys, BlockKeys(b.txs));
            && Commit(s, b, keys) == State(data + (batch + h), s.locks - h.Keys)
            && Abort(s, b, keys) == State(data + batch, s.locks - h.Keys)
  {
    hide Only, Here, BlockKeys;
    var h := Taken(s.locks, keys, BlockKeys(b.txs));
    assert (data + batch) + h == data + (batch + h);
  }

  /** The decisions on the first n hashes, as events. */
  function Decisions(blocks: map<Bytes, CrossBlock>, accepted: set<Bytes>, hashes: seq<Bytes>, commits: seq<bool>, keys: Key -> bool, n: nat): (es: seq<Event>)
    requires n <= |hashes| == |commits|
    ensures AreEvents(es)
  {
    if n == 0 then []
    else
      var (es, hash) := (Decisions(blocks, accepted, hashes, commits, keys, n - 1), hashes[n - 1]);
      if hash !in blocks || hash !in accepted then es
      else es + [if commits[n - 1] then Committed(blocks[hash], keys) else Aborted(blocks[hash], keys)]
  }

  lemma NoDecisions(s: State, blocks: map<Bytes, CrossBlock>, accepted: set<Bytes>, hashes: seq<Bytes>, commits: seq<bool>, keys: Key -> bool)
    requires |hashes| == |commits|
    ensures Run(s, Decisions(blocks, accepted, hashes, commits, keys, 0)) == s
  {
  }

  lemma DecideOneMore(s: State, blocks: map<Bytes, CrossBlock>, accepted: set<Bytes>, hashes: seq<Bytes>, commits: seq<bool>, keys: Key -> bool, i: nat)
    requires i < |hashes| == |commits|
    ensures var t := Run(s, Decisions(blocks, accepted, hashes, commits, keys, i));
            Run(s, Decisions(blocks, accepted, hashes, commits, keys, i + 1)) ==
            if hashes[i] !in blocks || hashes[i] !in accepted then t
            else if commits[i] then Commit(t, blocks[hashes[i]], keys) else Abort(t, blocks[hashes[i]], keys)
  {
    hide Commit, Abort;
    var (es, es') := (Decisions(blocks, accepted, hashes, commits, keys, i), Decisions(blocks, accepted, hashes, commits, keys, i + 1));
    assert es' != es ==> es'[..|es'| - 1] == es;
  }

  // ----- what a list of decisions does to one key -----

  /** Hash i names a block that is known and accepted and has the key, which is of this shard. */
  predicate Concerns(blocks: map<Bytes, CrossBlock>, accepted: set<Bytes>, hashes: seq<Bytes>, keys: Key -> bool, k: Key, i: nat)
    requires i < |hashes|
  {
    hashes[i] in blocks && hashes[i] in accepted && keys(k) && k in BlockKeys(blocks[hashes[i]].txs)
  }

  /** The first of the first n hashes that concerns the key. */
  function FirstOn(blocks: map<Bytes, CrossBlock>, accepted: set<Bytes>, hashes: seq<Bytes>, keys: Key -> bool, k: Key, n: nat): (r: Option<nat>)
    requires n <= |hashes|
    ensures r.Some? ==> r.value < n && Concerns(blocks, accepted, hashes, keys, k, r.value)
    ensures forall i :: 0 <= i < (if r.Some? then r.value else n) ==> !Concerns(blocks, accepted, hashes, keys, k, i)
  {
    if n == 0 then None
    else
      var r := FirstOn(blocks, accepted, hashes, keys, k, n - 1);
      if r.Some? then r else if Concerns(blocks, accepted, hashes, keys, k, n - 1) then Some(n - 1) else None
  }

  predicate SameAt(m: Balances, m': Balances, k: Key) {
    (k in m <==> k in m') && (k in m ==> m[k] == m'[k])
  }

  /** Without a decision the key stays as it is. With one it is free, and has the value it was locked with if that is to commit. */
  predicate IsDecided(s: State, r: State, k: Key, commit: Option<bool>) {
    if commit.None? then SameAt(s.locks, r.locks, k) && SameAt(s.store, r.store, k)
    else
      && k !in r.locks
      && if k in s.locks && commit.value then k in r.store && r.store[k] == s.locks[k] else SameAt(s.store, r.store, k)
  }

  lemma DecideAt(s: State, b: CrossBlock, keys: Key -> bool, k: Key)
    ensures var on := keys(k) && k in BlockKeys(b.txs);
            && IsDecided(s, Commit(s, b, keys), k, if on then Some(true) else None)
            && IsDecided(s, Abort(s, b, keys), k, if on then Some(false) else None)
  {
    hide BlockKeys;
  }

  lemma NotDecided(s: State, k: Key)
    ensures IsDecided(s, s, k, None)
  {
  }

  lemma DecidedOnce(s: State, t: State, u: State, k: Key, first: Option<bool>, second: Option<bool>)
    requires IsDecided(s, t, k, first) && IsDecided(t, u, k, second)
    ensures IsDecided(s, u, k, if first.Some? then first else second)
  {
  }

  /** The first decision that concerns a key frees it: the store gets the value it was locked with exactly when that
      decision is to commit. Later decisions on the key do nothing, and other keys stay as they are. */
  lemma {:induction false} FirstDecisionWins(s: State, blocks: map<Bytes, CrossBlock>, accepted: set<Bytes>, hashes: seq<Bytes>, commits: seq<bool>,
                                             keys: Key -> bool, n: nat, k: Key)
    requires n <= |hashes| == |commits|
    ensures var i := FirstOn(blocks, accepted, hashes, keys, k, n);
            IsDecided(s, Run(s, Decisions(blocks, accepted, hashes, commits, keys, n)), k, if i.Some? then Some(commits[i.value]) else None)
    decreases n
  {
    hide Commit, Abort, BlockKeys, IsDecided, Run, Decisions;
    if n == 0 {
      NoDecisions(s, blocks, accepted, hashes, commits, keys);
      assert IsDecided(s, s, k, None) by { NotDecided(s, k); }
    } else {
      var (t, hash) := (Run(s, Decisions(blocks, accepted, hashes, commits, keys, n - 1)), hashes[n - 1]);
      var i := FirstOn(blocks, accepted, hashes, keys, k, n - 1);
      FirstDecisionWins(s, blocks, accepted, hashes, commits, keys, n - 1, k);
      DecideOneMore(s, blocks, accepted, hashes, commits, keys, n - 1);
      if hash in blocks && hash in accepted {
        DecideAt(t, blocks[hash], keys, k);
        DecidedOnce(s, t, Run(s, Decisions(blocks, accepted, hashes, commits, keys, n)), k, if i.Some? then Some(commits[i.value]) else None,
                    if keys(k) && k in BlockKeys(blocks[hash].txs) then Some(commits[n - 1]) else None);
      }
    }
  }
}
