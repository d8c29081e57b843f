/** The mempool as the program keeps it (urd/mempool/mempool.go). */
module MempoolStates {
  import opened Bytes
  import opened CLists
  import opened Mempools

  function Values(s: seq<CElement>): (r: seq<Bytes>)
    ensures |r| == |s| && forall i :: 0 <= i < |s| ==> r[i] == s[i].value
  {
    seq(|s|, i requires 0 <= i < |s| => s[i].value)
  }

  class Mempool {
    const key: Bytes -> Bytes
    const txs: CList
    var txsMap: map<Bytes, CElement>
    ghost var at: map<Bytes, nat>

    ghost function Abs(): Pool
      reads this, txs
    {
      Pool(Values(txs.elems), at)
    }

    /** Every indexed element is in the list. */
    ghost predicate Valid()
      reads this, txs, txs.elems, txs.gone
    {
      txs.Valid() && IndexOk(key, txs.elems, txsMap, at)
    }

    constructor (key: Bytes -> Bytes, max: nat)
      ensures Valid() && fresh(txs) && Abs() == EMPTY && this.key == key && txs.gone == {}
    {
      this.key := key;
      txs := new CList(max);
      txsMap, at := map[], map[];
    }

    /** valid is what the application says of the transaction; the source panics when the list is full. */
    method AddTx(tx: Bytes, valid: bool) returns (panics: bool)
      requires Valid()
      modifies this, txs, txs.Elements()
      ensures panics <==> valid && old(txs.len) == txs.maxLen
      ensures !panics ==> Valid() && Abs() == if valid then Add(key, old(Abs()), tx) else old(Abs())
      ensures fresh(txs.Elements() - old(txs.Elements()))
    {
      hide AllInPlace, Distinct, InPlace, IndexOk, Add;
      if !valid { return false; }
      ghost var s := txs.elems;
      assert txs.tail != null ==> txs.tail in txs.Elements();
      var e := txs.PushBack(tx);
      if e == null { return true; }
      AddedOk(key, s, txsMap, at, e);
      txsMap := txsMap[key(tx) := e];
      at := at[key(tx) := |s|];
      panics := false;
    }

    method RemoveTx(tx: Bytes)
      requires Valid()
      modifies this, txs, txs.Elements()
      ensures Valid() && IsPool(key, old(Abs())) && Abs() == Remove(key, old(Abs()), tx)
      ensures txs.Elements() <= old(txs.Elements())
    {
      hide CList.Valid, IndexOk, Mempools.Remove, Shifted, Values, IsPool;
      var x := key(tx);
      IndexIsPool(key, txs.elems, txsMap, at, tx);
      if x !in txsMap { return; }
      ghost var s, k := txs.elems, at[x];
      var e := txsMap[x];
      NeighboursAreIn(txs, k);
      RemovedOk(key, s, txsMap, at, tx);
      var _ := txs.Remove(e, k);
      assert txs.elems == Without(s, k);
      txsMap := txsMap - {x};
      at := Shifted(at - {x}, k);
    }

    /** Update: what was put into a block is removed. */
    method Update(done: seq<Bytes>)
      requires Valid()
      modifies this, txs, txs.Elements()
      ensures Valid() && IsPool(key, old(Abs())) && Abs() == RemoveAll(key, old(Abs()), done)
    {
      hide RemoveAll, Mempools.Remove, IsPool, Values, IndexOk;
      ghost var p := Abs();
      IndexIsPool(key, txs.elems, txsMap, at, []);
      RemoveNone(key, p);
      for i := 0 to |done|
        invariant Valid() && Abs() == RemoveAll(key, p, done[..i])
        invariant txs.Elements() <= old(txs.Elements())
      {
        RemoveOneMore(key, p, done, i);
        RemoveTx(done[i]);
      }
      assert done[..|done|] == done;
    }

    /** ReapTx changes nothing. */
    method ReapTx(limit: int) returns (reaped: seq<Bytes>)
      requires Valid()
      ensures IsReaped(Abs().txs, limit, |reaped|) && reaped == Abs().txs[..|reaped|]
    {
      hide CList.Valid, IndexOk, Values;
      reaped := [];
      var current := 0;
      ghost var all := Abs().txs;
      var e := txs.Front();
      ghost var i := 0;
      while e != null
        invariant 0 <= i <= |all| && e == At(txs.elems, i) && reaped == all[..i] && current == Size(all[..i])
        invariant i > 0 ==> current < limit
        decreases |all| - i
      {
        NextOf(txs, i);
        assert all[..i + 1][..i] == all[..i] && all[i] == e.value;
        current := current + |e.value|;
        if current >= limit {
          forall j | i < j <= |all| ensures Size(all[..j]) >= limit { SizeGrows(all, i + 1, j); }
          break;
        }
        reaped := reaped + [e.value];
        e := e.next;
        i := i + 1;
      }
    }
  }

  ghost predicate IndexOk(key: Bytes -> Bytes, s: seq<CElement>, index: map<Bytes, CElement>, at: map<Bytes, nat>) {
    && at.Keys == index.Keys && IsPool(key, Pool(Values(s), at))
    && forall x :: x in at ==> at[x] < |s| && s[at[x]] == index[x]
  }

  lemma IndexIsPool(key: Bytes -> Bytes, s: seq<CElement>, index: map<Bytes, CElement>, at: map<Bytes, nat>, tx: Bytes)
    requires IndexOk(key, s, index, at)
    ensures IsPool(key, Pool(Values(s), at)) && at.Keys == index.Keys
    ensures key(tx) in index ==> at[key(tx)] < |s| && s[at[key(tx)]] == index[key(tx)]
    ensures key(tx) !in index ==> Remove(key, Pool(Values(s), at), tx) == Pool(Values(s), at)
  {
  }

  lemma AddedOk(key: Bytes -> Bytes, s: seq<CElement>, index: map<Bytes, CElement>, at: map<Bytes, nat>, e: CElement)
    requires IndexOk(key, s, index, at)
    ensures IndexOk(key, s + [e], index[key(e.value) := e], at[key(e.value) := |s|])
    ensures Pool(Values(s + [e]), at[key(e.value) := |s|]) == Add(key, Pool(Values(s), at), e.value)
  {
    hide IsPool;
    AddKeepsPool(key, Pool(Values(s), at), e.value);
    assert Values(s + [e]) == Values(s) + [e.value];
  }

  lemma ValuesWithout(s: seq<CElement>, k: nat)
    requires k < |s|
    ensures Values(Without(s, k)) == Values(s)[..k] + Values(s)[k + 1..]
    ensures forall e :: e in Without(s, k) ==> e in s
  {
  }

  /** Without one element, the others are found where the index says. */
  lemma PlacesWithout(key: Bytes -> Bytes, s: seq<CElement>, index: map<Bytes, CElement>, at: map<Bytes, nat>, x: Bytes)
    requires IndexOk(key, s, index, at) && x in at
    ensures var (k, at') := (at[x], Shifted(at - {x}, at[x]));
            forall y :: y in at' ==> at'[y] < |s| - 1 && Without(s, k)[at'[y]] == index[y]
  {
    hide Shifted;
    var (k, at') := (at[x], Shifted(at - {x}, at[x]));
    forall y | y in at' ensures at'[y] < |s| - 1 && Without(s, k)[at'[y]] == index[y] {
      assert key(Values(s)[at[y]]) == y && key(Values(s)[k]) == x;
      assert at[y] != k;
    }
  }

  lemma RemovedOk(key: Bytes -> Bytes, s: seq<CElement>, index: map<Bytes, CElement>, at: map<Bytes, nat>, tx: Bytes)
    requires IndexOk(key, s, index, at) && key(tx) in at
    ensures at[key(tx)] < |s| && IsPool(key, Pool(Values(s), at))
    ensures var (x, k) := (key(tx), at[key(tx)]);
            && IndexOk(key, Without(s, k), index - {x}, Shifted(at - {x}, k))
            && Pool(Values(Without(s, k)), Shifted(at - {x}, k)) == Remove(key, Pool(Values(s), at), tx)
            && (forall e :: e in Without(s, k) ==> e in s)
  {
    hide IsPool, Values, Without, Shifted;
    var (x, k) := (key(tx), at[key(tx)]);
    ValuesWithout(s, k);
    PlacesWithout(key, s, index, at, x);
    RemoveKeepsPool(key, Pool(Values(s), at), tx);
    assert |Without(s, k)| == |s| - 1 by { WithoutLength(s, k); }
  }

  lemma WithoutLength(s: seq<CElement>, k: nat)
    requires k < |s|
    ensures |Without(s, k)| == |s| - 1
  {
  }

  lemma NextOf(l: CList, i: nat)
    requires l.Valid() && i < |l.elems|
    ensures l.elems[i].next == At(l.elems, i + 1)
  {
    assert InPlace(l.elems, i);
  }

  lemma NeighboursAreIn(l: CList, k: nat)
    requires l.Valid() && k < |l.elems|
    ensures var e := l.elems[k];
            && e in l.Elements()
            && (e.prev != null ==> e.prev in l.Elements())
            && (e.next != null ==> e.next in l.Elements())
  {
    assert InPlace(l.elems, k);
  }

  ghost function RemoveAll(key: Bytes -> Bytes, p: Pool, done: seq<Bytes>): (r: Pool)
    requires IsPool(key, p)
    ensures IsPool(key, r)
    decreases |done|
  {
    if done == [] then p else
      var r := RemoveAll(key, p, done[..|done| - 1]);
      RemoveKeepsPool(key, r, done[|done| - 1]);
      Remove(key, r, done[|done| - 1])
  }

  lemma RemoveNone(key: Bytes -> Bytes, p: Pool)
    requires IsPool(key, p)
    ensures RemoveAll(key, p, []) == p
  {
  }

  lemma RemoveOneMore(key: Bytes -> Bytes, p: Pool, done: seq<Bytes>, i: nat)
    requires IsPool(key, p) && i < |done|
    ensures RemoveAll(key, p, done[..i + 1]) == Remove(key, RemoveAll(key, p, done[..i]), done[i])
  {
    assert done[..i + 1][..i] == done[..i];
  }
}
