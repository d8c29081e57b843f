/** The buffers over the store, and the transfers that run through them (pyramid/abci/minibank/memdb.go,
    application.go). */
module BankOverlay {
  import opened Bytes
  import opened Keys
  import opened Bank
  import opened BankPayments

  /** The database, as a map. */
  class Store {
    var data: Balances

    constructor (data: Balances)
      ensures this.data == data
    {
      this.data := data;
    }
  }

  /** How a memory database is looked at: RangeDB serves the keys of a shard, and CrossShardDB reads from recorded data. */
  datatype View = RangeView(keys: Key -> bool) | CrossShardView(data: Balances)

  function SourceOf(view: View, flat: Balances): Source {
    match view
    case RangeView(keys) => Ranged(flat, keys)
    case CrossShardView(data) => Recorded(data)
  }

  class MemoryDB {
    const store: Store
    var memDB: Balances
    var writeBuffer: Balances
    var readBuffer: Balances

    /** What is stored, with what is committed above it. */
    ghost function Flat(): Balances
      reads this, store
    {
      store.data + memDB
    }

    ghost predicate Valid()
      reads this, store
    {
      forall k :: k in readBuffer ==> readBuffer[k] == BalanceOf(Flat(), k)
    }

    constructor (store: Store)
      ensures Valid() && this.store == store && Flat() == store.data && memDB == writeBuffer == readBuffer == map[]
    {
      this.store := store;
      memDB, writeBuffer, readBuffer := map[], map[], map[];
    }

    /** Get remembers what it reads, and caches what it finds in the store. */
    method GetPlain(k: Key) returns (v: Money)
      requires Valid()
      modifies this`memDB, this`readBuffer
      ensures Valid() && Flat() == old(Flat()) && memDB.Keys <= old(memDB).Keys + {k}
      ensures v == if k in writeBuffer then writeBuffer[k] else BalanceOf(Flat(), k)
      ensures readBuffer == if k in writeBuffer then old(readBuffer) else old(readBuffer)[k := v]
    {
      if k in writeBuffer { return writeBuffer[k]; }
      if k in readBuffer {
        assert readBuffer == readBuffer[k := readBuffer[k]];
        return readBuffer[k];
      }
      if k in memDB {
        v := memDB[k];
      } else if k in store.data {
        v := store.data[k];
        memDB := memDB[k := v];
        assert store.data + memDB == old(Flat());
      } else {
        v := INIT_BALANCE;
      }
      readBuffer := readBuffer[k := v];
    }

    /** Get of the two views: what the running transaction has written is found first. */
    method Get(view: View, k: Key) returns (r: Option<Money>)
      requires Valid()
      modifies this`memDB, this`readBuffer
      ensures Valid() && Flat() == old(Flat())
      ensures r == if k in writeBuffer && (view.RangeView? ==> view.keys(k)) then Some(writeBuffer[k]) else Read(SourceOf(view, Flat()), k)
      ensures view.RangeView? ==>
                && (forall x :: x in memDB ==> x in old(memDB) || view.keys(x))
                && readBuffer == if view.keys(k) && k !in writeBuffer then old(readBuffer)[k := BalanceOf(Flat(), k)] else old(readBuffer)
      ensures view.CrossShardView? ==> memDB == old(memDB) && readBuffer == old(readBuffer)
    {
      match view {
        case RangeView(keys) =>
          if !keys(k) { return None; }
          var v := GetPlain(k);
          r := Some(v);
        case CrossShardView(data) =>
          if k in writeBuffer { return Some(writeBuffer[k]); }
          r := if k in data then Some(data[k]) else None;
      }
    }

    method Set(view: View, k: Key, v: Money) returns (ok: bool)
      modifies this`writeBuffer
      ensures ok == (view.RangeView? ==> view.keys(k))
      ensures writeBuffer == if ok then old(writeBuffer)[k := v] else old(writeBuffer)
    {
      if view.RangeView? && !view.keys(k) { return false; }
      writeBuffer := writeBuffer[k := v];
      ok := true;
    }

    method CommitWrite(do: bool)
      requires Valid()
      modifies this
      ensures Valid() && Flat() == if do then old(Flat()) + old(writeBuffer) else old(Flat())
      ensures memDB == if do then old(memDB) + old(writeBuffer) else old(memDB)
      ensures writeBuffer == map[] && readBuffer == map[]
    {
      if do {
        memDB := memDB + writeBuffer;
        assert store.data + memDB == old(Flat()) + old(writeBuffer);
      }
      writeBuffer := map[];
      readBuffer := map[];
    }

    /** RangeDB.Write flushes the keys of the shard, and drops the others. */
    method Write(keys: Key -> bool)
      requires Valid()
      modifies this`memDB, store
      ensures memDB == map[] && store.data == old(store.data) + OfShard(old(memDB), keys)
      ensures readBuffer == map[] ==> Valid()
      ensures (forall k :: k in old(memDB) ==> keys(k)) ==> Valid() && store.data == old(Flat())
    {
      var batch := map k | k in memDB && keys(k) :: memDB[k];
      assert batch == OfShard(memDB, keys);
      assert (forall k :: k in memDB ==> keys(k)) ==> batch == memDB;
      store.data := store.data + batch;
      memDB := map[];
      assert Flat() == store.data;
    }
  }

  function OfShard(m: Balances, keys: Key -> bool): (r: Balances)
    ensures r.Keys == set k | k in m && keys(k)
    ensures forall k :: k in r ==> r[k] == m[k]
  {
    map k | k in m && keys(k) :: m[k]
  }

  // ----- doTransfer -----

  predicate MayDebit(src: Source, locks: set<Key>, tx: Transfer, i: nat)
    requires i < |tx.from| == |tx.fromMoney|
  {
    tx.from[i] !in locks && Debited(src, tx.from[i], tx.fromMoney[i]).Some?
  }

  /** The keys that a range view can read. */
  function Readable(view: View, ks: seq<Key>): set<Key> {
    if view.RangeView? then set k | k in ks && view.keys(k) else {}
  }

  lemma NothingReadable(view: View, ks: seq<Key>)
    ensures Readable(view, ks[..0]) == {}
  {
  }

  lemma ReadableOneMore(view: View, ks: seq<Key>, i: nat)
    requires i < |ks|
    ensures Readable(view, ks[..i + 1]) == Readable(view, ks[..i]) + if view.RangeView? && view.keys(ks[i]) then {ks[i]} else {}
  {
    assert ks[..i + 1] == ks[..i] + [ks[i]];
  }

  method ReadPayers(locks: set<Key>, tx: Transfer, view: View, db: MemoryDB) returns (ok: bool, balances: seq<Money>)
    requires db.Valid() && db.writeBuffer == map[] && |tx.from| == |tx.fromMoney|
    modifies db`memDB, db`readBuffer
    ensures db.Valid() && db.Flat() == old(db.Flat())
    ensures view.RangeView? ==> forall k :: k in db.memDB ==> k in old(db.memDB) || view.keys(k)
    ensures view.CrossShardView? ==> db.memDB == old(db.memDB)
    ensures ok <==> forall i :: 0 <= i < |tx.from| ==> MayDebit(SourceOf(view, db.Flat()), locks, tx, i)
    ensures ok ==> db.readBuffer.Keys == old(db.readBuffer).Keys + Readable(view, tx.from)
    ensures ok ==> |balances| == |tx.from| && forall i :: 0 <= i < |tx.from| ==> Debited(SourceOf(view, db.Flat()), tx.from[i], tx.fromMoney[i]) == Some(balances[i])
  {
    hide Readable, Wrap;
    balances := [];
    ghost var src := SourceOf(view, db.Flat());
    assert Readable(view, tx.from[..0]) == {} by { NothingReadable(view, tx.from); }
    for i := 0 to |tx.from|
      invariant db.Valid() && db.Flat() == old(db.Flat()) && |balances| == i
      invariant view.RangeView? ==> forall k :: k in db.memDB ==> k in old(db.memDB) || view.keys(k)
      invariant view.CrossShardView? ==> db.memDB == old(db.memDB)
      invariant db.readBuffer.Keys == old(db.readBuffer).Keys + Readable(view, tx.from[..i])
      invariant forall j :: 0 <= j < i ==> MayDebit(src, locks, tx, j) && Debited(src, tx.from[j], tx.fromMoney[j]) == Some(balances[j])
    {
      if tx.from[i] in locks {
        assert !MayDebit(src, locks, tx, i);
        return false, balances;
      }
      ReadableOneMore(view, tx.from, i);
      var balance := db.Get(view, tx.from[i]);
      if balance.None? {
        balances := balances + [Wrap(INIT_BALANCE - tx.fromMoney[i])];
      } else if balance.value < tx.fromMoney[i] {
        assert !MayDebit(src, locks, tx, i);
        return false, balances;
      } else {
        balances := balances + [balance.value - tx.fromMoney[i]];
      }
    }
    assert tx.from[..|tx.from|] == tx.from;
    ok := true;
  }

  method ReadPayees(locks: set<Key>, tx: Transfer, view: View, db: MemoryDB) returns (ok: bool, balances: seq<Money>)
    requires db.Valid() && db.writeBuffer == map[] && |tx.to| == |tx.toMoney|
    modifies db`memDB, db`readBuffer
    ensures db.Valid() && db.Flat() == old(db.Flat())
    ensures view.RangeView? ==> forall k :: k in db.memDB ==> k in old(db.memDB) || view.keys(k)
    ensures view.CrossShardView? ==> db.memDB == old(db.memDB)
    ensures ok <==> forall i :: 0 <= i < |tx.to| ==> tx.to[i] !in locks
    ensures ok ==> db.readBuffer.Keys == old(db.readBuffer).Keys + Readable(view, tx.to)
    ensures ok ==> |balances| == |tx.to| && forall i :: 0 <= i < |tx.to| ==> Credited(SourceOf(view, db.Flat()), tx.to[i], tx.toMoney[i]) == balances[i]
  {
    hide Readable, Wrap;
    balances := [];
    ghost var src := SourceOf(view, db.Flat());
    assert Readable(view, tx.to[..0]) == {} by { NothingReadable(view, tx.to); }
    for i := 0 to |tx.to|
      invariant db.Valid() && db.Flat() == old(db.Flat()) && |balances| == i
      invariant view.RangeView? ==> forall k :: k in db.memDB ==> k in old(db.memDB) || view.keys(k)
      invariant view.CrossShardView? ==> db.memDB == old(db.memDB)
      invariant db.readBuffer.Keys == old(db.readBuffer).Keys + Readable(view, tx.to[..i])
      invariant forall j :: 0 <= j < i ==> tx.to[j] !in locks && Credited(src, tx.to[j], tx.toMoney[j]) == balances[j]
    {
      if tx.to[i] in locks { return false, balances; }
      ReadableOneMore(view, tx.to, i);
      var balance := db.Get(view, tx.to[i]);
      if balance.None? {
        balances := balances + [Wrap(INIT_BALANCE + tx.toMoney[i])];
      } else {
        balances := balances + [Wrap(balance.value as int + tx.toMoney[i] as int)];
      }
    }
    assert tx.to[..|tx.to|] == tx.to;
    ok := true;
  }

  /** Sets the keys one after the other, up to the first that is refused. */
  method SetAll(view: View, ks: seq<Key>, vs: seq<Money>, db: MemoryDB) returns (ok: bool)
    requires |ks| == |vs|
    modifies db`writeBuffer
    ensures ok <==> forall i :: 0 <= i < |ks| ==> view.RangeView? ==> view.keys(ks[i])
    ensures ok ==> db.writeBuffer == Updated(old(db.writeBuffer), ks, vs, |ks|)
  {
    for i := 0 to |ks|
      invariant db.writeBuffer == Updated(old(db.writeBuffer), ks, vs, i)
      invariant forall j :: 0 <= j < i ==> view.RangeView? ==> view.keys(ks[j])
    {
      var done := db.Set(view, ks[i], vs[i]);
      if !done { return false; }
    }
    ok := true;
  }

  function Updated(m: Balances, ks: seq<Key>, vs: seq<Money>, n: nat): Balances
    requires n <= |ks| == |vs|
  {
    if n == 0 then m else Updated(m, ks, vs, n - 1)[ks[n - 1] := vs[n - 1]]
  }

  lemma {:induction false} DebitsUpdate(src: Source, tx: Transfer, vs: seq<Money>, n: nat)
    requires n <= |tx.from| == |tx.fromMoney| == |vs|
    requires forall i :: 0 <= i < |tx.from| ==> Debited(src, tx.from[i], tx.fromMoney[i]) == Some(vs[i])
    ensures Updated(map[], tx.from, vs, n) == DebitWrites(src, tx, n)
  {
    hide Debited;
    if n > 0 { DebitsUpdate(src, tx, vs, n - 1); }
  }

  lemma {:induction false} CreditsUpdate(src: Source, tx: Transfer, vs: seq<Money>, n: nat)
    requires n <= |tx.to| == |tx.toMoney| == |vs| && |tx.from| == |tx.fromMoney|
    requires forall i :: 0 <= i < |tx.from| ==> Debited(src, tx.from[i], tx.fromMoney[i]).Some?
    requires forall i :: 0 <= i < |tx.to| ==> Credited(src, tx.to[i], tx.toMoney[i]) == vs[i]
    ensures Updated(DebitWrites(src, tx, |tx.from|), tx.to, vs, n) == CreditWrites(src, tx, n)
  {
    hide Debited, Credited;
    if n > 0 { CreditsUpdate(src, tx, vs, n - 1); }
  }

  /** The two loops that write. */
  method WriteBalances(ghost src: Source, tx: Transfer, view: View, fromBalance: seq<Money>, toBalance: seq<Money>, db: MemoryDB) returns (ok: bool)
    requires db.writeBuffer == map[] && |tx.from| == |tx.fromMoney| == |fromBalance| && |tx.to| == |tx.toMoney| == |toBalance|
    requires forall i :: 0 <= i < |tx.from| ==> Debited(src, tx.from[i], tx.fromMoney[i]) == Some(fromBalance[i])
    requires forall i :: 0 <= i < |tx.to| ==> Credited(src, tx.to[i], tx.toMoney[i]) == toBalance[i]
    modifies db`writeBuffer
    ensures ok <==> (forall i :: 0 <= i < |tx.from| ==> view.RangeView? ==> view.keys(tx.from[i])) &&
                    (forall i :: 0 <= i < |tx.to| ==> view.RangeView? ==> view.keys(tx.to[i]))
    ensures ok ==> db.writeBuffer == CreditWrites(src, tx, |tx.to|)
  {
    hide Debited, Credited, Updated, DebitWrites, CreditWrites;
    ok := SetAll(view, tx.from, fromBalance, db);
    if !ok { return; }
    ok := SetAll(view, tx.to, toBalance, db);
    DebitsUpdate(src, tx, fromBalance, |tx.from|);
    CreditsUpdate(src, tx, toBalance, |tx.to|);
  }

  method Validate(tx: Transfer) returns (ok: bool)
    ensures ok == IsValid(tx)
  {
    if |tx.from| != |tx.fromMoney| || |tx.to| != |tx.toMoney| { return false; }
    if |tx.from| == 0 || |tx.to| == 0 { return false; }
    var fromSum := SumMoney(tx.fromMoney);
    var toSum := SumMoney(tx.toMoney);
    ok := fromSum == toSum;
  }

  /** doTransfer: all balances are read before any is written; what a failed transfer wrote is only in the buffer. */
  method DoTransfer(locks: set<Key>, tx: Transfer, view: View, db: MemoryDB) returns (ok: bool)
    requires db.Valid() && db.writeBuffer == map[] && db.readBuffer == map[]
    modifies db
    ensures db.Valid() && db.Flat() == old(db.Flat())
    ensures view.RangeView? ==> forall k :: k in db.memDB ==> k in old(db.memDB) || view.keys(k)
    ensures view.CrossShardView? ==> db.memDB == old(db.memDB)
    ensures ok == Succeeds(SourceOf(view, db.Flat()), locks, tx)
    ensures ok ==> db.writeBuffer == Writes(SourceOf(view, db.Flat()), tx)
    ensures ok && view.RangeView? ==> db.readBuffer == ReadSet(db.Flat(), KeysOf(tx))
    ensures view.RangeView? ==> ok == CanPay(old(db.Flat()), view.keys, locks, tx)
  {
    hide IsValid, Debited, Credited, Updated, Readable, DebitWrites, CreditWrites, Succeeds, MayDebit, CanPay;
    if view.RangeView? { SucceedsIffCanPay(db.Flat(), view.keys, locks, tx); }
    var valid := Validate(tx);
    if !valid {
      InvalidFails(SourceOf(view, db.Flat()), locks, tx);
      return false;
    }
    assert |tx.from| == |tx.fromMoney| && |tx.to| == |tx.toMoney| by { ValidShape(tx); }
    ghost var src := SourceOf(view, db.Flat());
    SucceedsIff(view, db.Flat(), locks, tx);
    var paid, fromBalance := ReadPayers(locks, tx, view, db);
    if !paid { return false; }
    var free, toBalance := ReadPayees(locks, tx, view, db);
    if !free { return false; }
    ok := WriteBalances(src, tx, view, fromBalance, toBalance, db);
    if ok && view.RangeView? {
      AllReadable(view, tx);
      assert db.readBuffer == ReadSet(db.Flat(), KeysOf(tx));
    }
  }

  lemma InvalidFails(src: Source, locks: set<Key>, tx: Transfer)
    requires !IsValid(tx)
    ensures !Succeeds(src, locks, tx)
  {
  }

  lemma SucceedsIff(view: View, flat: Balances, locks: set<Key>, tx: Transfer)
    requires IsValid(tx)
    ensures Succeeds(SourceOf(view, flat), locks, tx) <==>
            && (forall i :: 0 <= i < |tx.from| ==> MayDebit(SourceOf(view, flat), locks, tx, i))
            && (forall i :: 0 <= i < |tx.to| ==> tx.to[i] !in locks)
            && (forall i :: 0 <= i < |tx.from| ==> view.RangeView? ==> view.keys(tx.from[i]))
            && (forall i :: 0 <= i < |tx.to| ==> view.RangeView? ==> view.keys(tx.to[i]))
    ensures Succeeds(SourceOf(view, flat), locks, tx) ==>
              Succeeds(SourceOf(view, flat), {}, tx) && forall i :: 0 <= i < |tx.from| ==> Debited(SourceOf(view, flat), tx.from[i], tx.fromMoney[i]).Some?
  {
    hide Debited, IsValid;
    ValidShape(tx);
    if forall i :: 0 <= i < |tx.from| ==> MayDebit(SourceOf(view, flat), locks, tx, i) {
      forall i | 0 <= i < |tx.from| ensures tx.from[i] !in locks && Debited(SourceOf(view, flat), tx.from[i], tx.fromMoney[i]).Some? {
        assert MayDebit(SourceOf(view, flat), locks, tx, i);
      }
    }
  }

  lemma AllReadable(view: View, tx: Transfer)
    requires view.RangeView? && (forall i :: 0 <= i < |tx.from| ==> view.keys(tx.from[i])) && forall i :: 0 <= i < |tx.to| ==> view.keys(tx.to[i])
    ensures Readable(view, tx.from) + Readable(view, tx.to) == KeysOf(tx)
  {
  }
}
