/** Cross-shard blocks: the read sets that the B shard records, and the execution from them on an I shard
    (pyramid/abci/minibank/application.go, types.go). */
module BankReplay {
  import opened Bytes
  import opened Keys
  import opened Bank

  /** What FillData records with a transaction: the balances it read, and whether it succeeded. */
  datatype Data = Data(readSet: Balances, ok: bool)

  datatype CrossBlock = CrossBlock(txs: seq<Tx>, datas: seq<Data>)

  function DataOf(b: Balances, keys: Key -> bool, locks: set<Key>, tx: Tx): Data {
    if TxSucceeds(Ranged(b, keys), locks, tx) then Data(ReadSet(b, KeysOf(tx.value)), true) else Data(map[], false)
  }

  /** FillData: each transaction with its data, over the balances that the ones before it left. */
  function Record(b: Balances, keys: Key -> bool, locks: set<Key>, txs: seq<Tx>): (ds: seq<Data>)
    ensures |ds| == |txs|
    decreases |txs|
  {
    if txs == [] then []
    else
      var front := txs[..|txs| - 1];
      Record(b, keys, locks, front) + [DataOf(RunBlock(b, keys, locks, front), keys, locks, txs[|txs| - 1])]
  }

  predicate Replays(locks: set<Key>, tx: Tx, d: Data) {
    d.ok && TxSucceeds(Recorded(d.readSet), locks, tx)
  }

  /** The writes that AcceptCrossShard collects over the block. */
  function Replay(locks: set<Key>, txs: seq<Tx>, ds: seq<Data>): Balances
    requires |txs| <= |ds|
    decreases |txs|
  {
    if txs == [] then map[]
    else
      var n := |txs| - 1;
      var w := Replay(locks, txs[..n], ds);
      if Replays(locks, txs[n], ds[n]) then w + Writes(Recorded(ds[n].readSet), txs[n].value) else w
  }

  /** The writes of the block when it runs over the store, one transaction after the other. */
  function Written(b: Balances, keys: Key -> bool, locks: set<Key>, txs: seq<Tx>): Balances
    decreases |txs|
  {
    if txs == [] then map[]
    else
      var n := |txs| - 1;
      var (b', w) := (RunBlock(b, keys, locks, txs[..n]), Written(b, keys, locks, txs[..n]));
      if TxSucceeds(Ranged(b', keys), locks, txs[n]) then w + Writes(Ranged(b', keys), txs[n].value) else w
  }

  /** Running the block is writing these over the store. */
  lemma {:induction false} WrittenIsRun(b: Balances, keys: Key -> bool, locks: set<Key>, txs: seq<Tx>)
    ensures b + Written(b, keys, locks, txs) == RunBlock(b, keys, locks, txs)
    decreases |txs|
  {
    hide TxSucceeds, Writes;
    if txs != [] { WrittenIsRun(b, keys, locks, txs[..|txs| - 1]); }
  }

  /** Two sources that read alike make a transfer write alike. */
  predicate SameReads(s: Source, t: Source, tx: Transfer) {
    forall k :: k in KeysOf(tx) ==> Read(s, k) == Read(t, k)
  }

  lemma SameDebit(s: Source, t: Source, tx: Transfer, i: nat)
    requires SameReads(s, t, tx) && i < |tx.from| == |tx.fromMoney|
    ensures Debited(s, tx.from[i], tx.fromMoney[i]) == Debited(t, tx.from[i], tx.fromMoney[i])
  {
    assert tx.from[i] in KeysOf(tx);
  }

  lemma SameCredit(s: Source, t: Source, tx: Transfer, i: nat)
    requires SameReads(s, t, tx) && i < |tx.to| == |tx.toMoney|
    ensures Credited(s, tx.to[i], tx.toMoney[i]) == Credited(t, tx.to[i], tx.toMoney[i])
  {
    assert tx.to[i] in KeysOf(tx);
  }

  lemma {:induction false} SameDebits(s: Source, t: Source, tx: Transfer, n: nat)
    requires SameReads(s, t, tx) && n <= |tx.from| == |tx.fromMoney|
    requires forall i :: 0 <= i < n ==> Debited(s, tx.from[i], tx.fromMoney[i]).Some?
    ensures forall i :: 0 <= i < n ==> Debited(t, tx.from[i], tx.fromMoney[i]).Some?
    ensures DebitWrites(s, tx, n) == DebitWrites(t, tx, n)
  {
    hide SameReads, Debited;
    if n > 0 {
      SameDebits(s, t, tx, n - 1);
      SameDebit(s, t, tx, n - 1);
    }
  }

  lemma {:induction false} SameCredits(s: Source, t: Source, tx: Transfer, n: nat)
    requires SameReads(s, t, tx) && n <= |tx.to| == |tx.toMoney| && |tx.from| == |tx.fromMoney|
    requires forall i :: 0 <= i < |tx.from| ==> Debited(s, tx.from[i], tx.fromMoney[i]).Some?
    ensures forall i :: 0 <= i < |tx.from| ==> Debited(t, tx.from[i], tx.fromMoney[i]).Some?
    ensures CreditWrites(s, tx, n) == CreditWrites(t, tx, n)
  {
    hide SameReads, Debited, Credited, DebitWrites;
    SameDebits(s, t, tx, |tx.from|);
    if n > 0 {
      SameCredits(s, t, tx, n - 1);
      SameCredit(s, t, tx, n - 1);
    }
  }

  /** A transfer that succeeded over the store succeeds from its read set wherever none of its keys is locked, and
      writes the same. */
  lemma ReadSetSuffices(b: Balances, keys: Key -> bool, locks: set<Key>, locks': set<Key>, tx: Transfer)
    requires Succeeds(Ranged(b, keys), locks, tx) && locks' !! KeysOf(tx)
    ensures Succeeds(Recorded(ReadSet(b, KeysOf(tx))), locks', tx) && Succeeds(Ranged(b, keys), {}, tx) && Succeeds(Recorded(ReadSet(b, KeysOf(tx))), {}, tx)
    ensures Writes(Recorded(ReadSet(b, KeysOf(tx))), tx) == Writes(Ranged(b, keys), tx)
  {
    hide IsValid, Debited, Credited;
    var (s, t) := (Ranged(b, keys), Recorded(ReadSet(b, KeysOf(tx))));
    forall k | k in KeysOf(tx) ensures Read(s, k) == Read(t, k) {
      if k in tx.from { var i :| 0 <= i < |tx.from| && tx.from[i] == k; assert MayWrite(s, tx.from[i]); }
      else { var i :| 0 <= i < |tx.to| && tx.to[i] == k; assert MayWrite(s, tx.to[i]); }
    }
    assert |tx.from| == |tx.fromMoney| && |tx.to| == |tx.toMoney| by { ValidShape(tx); }
    SameCredits(s, t, tx, |tx.to|);
    forall i | 0 <= i < |tx.from| ensures tx.from[i] !in locks' { assert tx.from[i] in KeysOf(tx); }
    forall i | 0 <= i < |tx.to| ensures tx.to[i] !in locks' { assert tx.to[i] in KeysOf(tx); }
  }

  function BlockKeys(txs: seq<Tx>): set<Key> {
    if txs == [] then {} else BlockKeys(txs[..|txs| - 1]) + if txs[|txs| - 1].Some? then KeysOf(txs[|txs| - 1].value) else {}
  }

  lemma {:induction false} ReplayPrefix(locks: set<Key>, txs: seq<Tx>, ds: seq<Data>, ds': seq<Data>)
    requires |txs| <= |ds| && |txs| <= |ds'| && forall i :: 0 <= i < |txs| ==> ds[i] == ds'[i]
    ensures Replay(locks, txs, ds) == Replay(locks, txs, ds')
    decreases |txs|
  {
    hide Replays, Writes;
    if txs != [] { ReplayPrefix(locks, txs[..|txs| - 1], ds, ds'); }
  }

  lemma LastData(b: Balances, keys: Key -> bool, locks: set<Key>, locks': set<Key>, tx: Tx)
    requires tx.Some? ==> locks' !! KeysOf(tx.value)
    ensures var d := DataOf(b, keys, locks, tx);
            && (Replays(locks', tx, d) <==> TxSucceeds(Ranged(b, keys), locks, tx))
            && (Replays(locks', tx, d) ==> Writes(Recorded(d.readSet), tx.value) == Writes(Ranged(b, keys), tx.value))
  {
    hide Succeeds, KeysOf, Writes, ReadSet;
    if TxSucceeds(Ranged(b, keys), locks, tx) { ReadSetSuffices(b, keys, locks, locks', tx.value); }
  }

  /** Re-executing a block from what was recorded gives the same success flags, and writes the same final value to
      every key, on any shard where none of the block's keys is locked. */
  lemma {:induction false} ReplayIsExecution(b: Balances, keys: Key -> bool, locks: set<Key>, locks': set<Key>, txs: seq<Tx>)
    requires locks' !! BlockKeys(txs)
    ensures Replay(locks', txs, Record(b, keys, locks, txs)) == Written(b, keys, locks, txs)
    ensures forall i :: 0 <= i < |txs| ==>
              (Replays(locks', txs[i], Record(b, keys, locks, txs)[i]) <==> TxSucceeds(Ranged(RunBlock(b, keys, locks, txs[..i]), keys), locks, txs[i]))
    decreases |txs|
  {
    hide DataOf, TxSucceeds, Writes, Replays, KeysOf, RunBlock;
    if txs != [] {
      var n := |txs| - 1;
      var (front, ds) := (txs[..n], Record(b, keys, locks, txs));
      ReplayIsExecution(b, keys, locks, locks', front);
      assert ds[..n] == Record(b, keys, locks, front);
      ReplayPrefix(locks', front, ds, Record(b, keys, locks, front));
      LastData(RunBlock(b, keys, locks, front), keys, locks, locks', txs[n]);
      forall i | 0 <= i < |txs|
        ensures Replays(locks', txs[i], ds[i]) <==> TxSucceeds(Ranged(RunBlock(b, keys, locks, txs[..i]), keys), locks, txs[i])
      {
        if i < n { assert front[..i] == txs[..i] && front[i] == txs[i] && ds[i] == Record(b, keys, locks, front)[i]; }
      }
    }
  }

  // ----- the codec of read sets -----

  /** BankData, as it is put on the wire. */
  datatype BankData = BankData(keys: seq<Key>, values: seq<Money>, ok: bool)

  /** The keys of a map in order; there is just one such list. */
  function Insert(ks: seq<Key>, k: Key): seq<Key> {
    if ks == [] then [k] else if Less(k, ks[0]) then [k] + ks else if k == ks[0] then ks else [ks[0]] + Insert(ks[1..], k)
  }

  lemma FirstIsLeast(ks: seq<Key>, k: Key)
    requires IsSorted(ks) && k in Elems(ks)
    ensures |ks| > 0 && AtMost(ks[0], k) && (k == ks[0] || Less(ks[0], k))
  {
    hide Less, AtMost;
    var i :| 0 <= i < |ks| && ks[i] == k;
    assert i == 0 || Less(ks[0], ks[i]);
    assert AtMost(ks[0], k) <==> !Less(k, ks[0]) by { OrderIsTotal(ks[0], k); }
  }

  lemma OrderIsTotal(a: Key, b: Key)
    ensures AtMost(a, b) <==> !Less(b, a)
    ensures Less(a, b) || a == b || Less(b, a)
    ensures Less(a, b) ==> !Less(b, a)
  {
    hide Less, AtMost;
    assert Less(a, b) || !Less(a, b);
    assert Less(b, a) || !Less(b, a);
    assert AtMost(a, b) || !AtMost(a, b);
  }

  lemma ConsSorted(k: Key, ks: seq<Key>)
    requires IsSorted(ks) && forall x :: x in Elems(ks) ==> Less(k, x)
    ensures IsSorted([k] + ks) && Elems([k] + ks) == {k} + Elems(ks)
  {
    hide Less;
    assert forall i :: 0 <= i < |ks| ==> ks[i] in Elems(ks);
  }

  lemma TailSorted(ks: seq<Key>)
    requires IsSorted(ks) && ks != []
    ensures IsSorted(ks[1..]) && ks[0] !in Elems(ks[1..]) && Elems(ks) == {ks[0]} + Elems(ks[1..])
    ensures forall x :: x in Elems(ks[1..]) ==> Less(ks[0], x)
  {
    hide Less;
    assert ks == [ks[0]] + ks[1..];
    assert forall i :: 0 <= i < |ks[1..]| ==> Less(ks[0], ks[1..][i]) && ks[0] != ks[1..][i];
  }

  lemma {:induction false} InsertKeeps(ks: seq<Key>, k: Key)
    requires IsSorted(ks)
    ensures IsSorted(Insert(ks, k)) && Elems(Insert(ks, k)) == Elems(ks) + {k}
  {
    hide Less, IsSorted, Elems;
    if ks == [] {
      assert IsSorted([k]) && Elems([k]) == Elems([]) + {k} by { OneSorted(k); }
    } else {
      OrderIsTotal(k, ks[0]);
      if Less(k, ks[0]) {
        forall x | x in Elems(ks) ensures Less(k, x) { FirstIsLeast(ks, x); Transitive(k, ks[0], x); }
        ConsSorted(k, ks);
      } else if k == ks[0] {
        TailSorted(ks);
      } else {
        TailSorted(ks);
        InsertKeeps(ks[1..], k);
        ConsSorted(ks[0], Insert(ks[1..], k));
      }
    }
  }

  lemma Transitive(a: Key, b: Key, c: Key)
    requires Less(a, b) && AtMost(b, c)
    ensures Less(a, c)
  {
    hide Less, AtMost;
  }

  lemma OneSorted(k: Key)
    ensures IsSorted([k]) && Elems([k]) == Elems([]) + {k}
  {
  }

  lemma NothingSorted()
    ensures IsSorted([])
  {
  }

  lemma NoElems(ks: seq<Key>)
    ensures Elems(ks) == {} <==> ks == []
  {
    if ks != [] { assert ks[0] in Elems(ks); }
  }

  lemma FirstIn(ks: seq<Key>)
    requires ks != []
    ensures ks[0] in Elems(ks)
  {
  }

  /** A set of keys has one sorted list. */
  lemma {:induction false} SortedIsUnique(ks: seq<Key>, ls: seq<Key>)
    requires IsSorted(ks) && IsSorted(ls) && Elems(ks) == Elems(ls)
    ensures ks == ls
  {
    hide Less, AtMost, IsSorted, Elems;
    NoElems(ks);
    NoElems(ls);
    if ks != [] {
      FirstIn(ks);
      FirstIn(ls);
      FirstIsLeast(ks, ls[0]);
      FirstIsLeast(ls, ks[0]);
      assert ks[0] == ls[0];
      TailSorted(ks);
      TailSorted(ls);
      assert Elems(ks[1..]) == Elems(ls[1..]);
      SortedIsUnique(ks[1..], ls[1..]);
      assert ks == [ks[0]] + ks[1..] && ls == [ls[0]] + ls[1..];
    }
  }

  /** CrossShardDataBytes: the keys are taken in any order and sorted. */
  method Encode(data: Balances, ok: bool) returns (bd: BankData)
    ensures IsSorted(bd.keys) && Elems(bd.keys) == data.Keys && |bd.values| == |bd.keys| && bd.ok == ok
    ensures forall i :: 0 <= i < |bd.keys| ==> bd.values[i] == data[bd.keys[i]]
  {
    hide Less, IsSorted;
    var keyList, todo := [], data.Keys;
    assert IsSorted([]) by { NothingSorted(); }
    while todo != {}
      invariant IsSorted(keyList) && Elems(keyList) == data.Keys - todo && todo <= data.Keys
      decreases |todo|
    {
      var k :| k in todo;
      InsertKeeps(keyList, k);
      keyList := Insert(keyList, k);
      todo := todo - {k};
    }
    var valueList: seq<Money> := [];
    assert forall j :: 0 <= j < |keyList| ==> keyList[j] in Elems(keyList);
    for i := 0 to |keyList|
      invariant |valueList| == i && forall j :: 0 <= j < i ==> valueList[j] == data[keyList[j]]
    {
      assert keyList[i] in Elems(keyList);
      valueList := valueList + [data[keyList[i]]];
    }
    bd := BankData(keyList, valueList, ok);
  }

  /** NewCrossShardDataFromBytes; the source panics when there are fewer values than keys. */
  method Decode(bd: BankData) returns (d: Data)
    requires |bd.keys| <= |bd.values|
    ensures d.ok == bd.ok && d.readSet.Keys == Elems(bd.keys)
    ensures IsSorted(bd.keys) ==> forall i :: 0 <= i < |bd.keys| ==> d.readSet[bd.keys[i]] == bd.values[i]
  {
    hide Less;
    var out: Balances := map[];
    for i := 0 to |bd.keys|
      invariant out.Keys == Elems(bd.keys[..i])
      invariant IsSorted(bd.keys) ==> forall j :: 0 <= j < i ==> bd.keys[j] in out && out[bd.keys[j]] == bd.values[j]
    {
      assert bd.keys[..i + 1] == bd.keys[..i] + [bd.keys[i]];
      assert IsSorted(bd.keys) ==> forall j :: 0 <= j < i ==> Less(bd.keys[j], bd.keys[i]) && bd.keys[j] != bd.keys[i];
      out := out[bd.keys[i] := bd.values[i]];
    }
    assert bd.keys[..|bd.keys|] == bd.keys;
    d := Data(out, bd.ok);
  }

  /** What is encoded is decoded, and the encoding does not depend on the order in which the map is walked. */
  method RoundTrip(data: Balances, ok: bool) returns (first: BankData, second: BankData, d: Data)
    ensures first == second && d == Data(data, ok)
  {
    hide Less;
    first := Encode(data, ok);
    second := Encode(data, ok);
    SortedIsUnique(first.keys, second.keys);
    assert first.values == second.values;
    d := Decode(first);
    assert d.readSet == data by {
      forall k | k in data ensures d.readSet[k] == data[k] {
        assert k in Elems(first.keys);
        var i :| 0 <= i < |first.keys| && first.keys[i] == k;
      }
    }
  }
}
