/** The mempool: a list of transactions, and an index from keys to its elements (urd/mempool/mempool.go). */
module Mempools {
  import opened Bytes

  /** The transactions in order, and the place of the one that each key stands for. */
  datatype Pool = Pool(txs: seq<Bytes>, at: map<Bytes, nat>)

  const EMPTY: Pool := Pool([], map[])

  function Add(key: Bytes -> Bytes, p: Pool, tx: Bytes): Pool {
    Pool(p.txs + [tx], p.at[key(tx) := |p.txs|])
  }

  /** The places after k move up. */
  function Shifted(at: map<Bytes, nat>, k: nat): (r: map<Bytes, nat>)
    ensures r.Keys == at.Keys && forall x :: x in at ==> r[x] == if at[x] > k then at[x] - 1 else at[x]
  {
    map x | x in at :: if at[x] > k then at[x] - 1 else at[x]
  }

  function Remove(key: Bytes -> Bytes, p: Pool, tx: Bytes): Pool
    requires IsPool(key, p)
  {
    if key(tx) !in p.at then p
    else
      var k := p.at[key(tx)];
      Pool(p.txs[..k] + p.txs[k + 1..], Shifted(p.at - {key(tx)}, k))
  }

  /** Every indexed transaction is in the list, under its own key. */
  predicate IsPool(key: Bytes -> Bytes, p: Pool) {
    forall x :: x in p.at ==> p.at[x] < |p.txs| && key(p.txs[p.at[x]]) == x
  }

  /** Every transaction in the list is indexed. */
  predicate IsFullyIndexed(key: Bytes -> Bytes, p: Pool) {
    forall i :: 0 <= i < |p.txs| ==> key(p.txs[i]) in p.at && p.at[key(p.txs[i])] == i
  }

  lemma AddKeepsPool(key: Bytes -> Bytes, p: Pool, tx: Bytes)
    requires IsPool(key, p)
    ensures IsPool(key, Add(key, p, tx))
  {
  }

  lemma RemoveKeepsPool(key: Bytes -> Bytes, p: Pool, tx: Bytes)
    requires IsPool(key, p)
    ensures IsPool(key, Remove(key, p, tx))
  {
    if key(tx) in p.at {
      var (k, r) := (p.at[key(tx)], Remove(key, p, tx));
      forall x | x in r.at ensures r.at[x] < |r.txs| && key(r.txs[r.at[x]]) == x {
        assert p.at[x] != k;
        assert r.txs[r.at[x]] == p.txs[p.at[x]];
      }
    }
  }

  /** The index stays complete exactly when the new transaction's key is not in it yet. */
  lemma AddKeepsIndexIff(key: Bytes -> Bytes, p: Pool, tx: Bytes)
    requires IsPool(key, p) && IsFullyIndexed(key, p)
    ensures IsFullyIndexed(key, Add(key, p, tx)) <==> key(tx) !in p.at
  {
    var q := Add(key, p, tx);
    if key(tx) in p.at {
      var i := p.at[key(tx)];
      assert q.txs[i] == p.txs[i] && key(q.txs[i]) == key(tx) && q.at[key(tx)] != i;
    } else {
      forall i | 0 <= i < |q.txs| ensures key(q.txs[i]) in q.at && q.at[key(q.txs[i])] == i {
        if i < |p.txs| { assert key(p.txs[i]) in p.at; }
      }
    }
  }

  /** Removing keeps a complete index complete. */
  lemma RemoveKeepsIndex(key: Bytes -> Bytes, p: Pool, tx: Bytes)
    requires IsPool(key, p) && IsFullyIndexed(key, p)
    ensures IsFullyIndexed(key, Remove(key, p, tx))
    ensures forall i :: 0 <= i < |Remove(key, p, tx).txs| ==> key(Remove(key, p, tx).txs[i]) != key(tx)
  {
    var r := Remove(key, p, tx);
    if key(tx) in p.at {
      var k := p.at[key(tx)];
      forall i | 0 <= i < |r.txs| ensures key(r.txs[i]) in r.at && r.at[key(r.txs[i])] == i && key(r.txs[i]) != key(tx) {
        var j := if i < k then i else i + 1;
        assert r.txs[i] == p.txs[j] && p.at[key(p.txs[j])] == j;
      }
    } else {
      forall i | 0 <= i < |r.txs| ensures key(r.txs[i]) != key(tx) { assert key(p.txs[i]) in p.at; }
    }
  }

  // ----- copies -----

  datatype Call = Added(tx: Bytes) | Removed(tx: Bytes)

  function Apply(key: Bytes -> Bytes, p: Pool, call: Call): (q: Pool)
    requires IsPool(key, p)
    ensures IsPool(key, q)
  {
    match call
    case Added(tx) => AddKeepsPool(key, p, tx); Add(key, p, tx)
    case Removed(tx) => RemoveKeepsPool(key, p, tx); Remove(key, p, tx)
  }

  function After(key: Bytes -> Bytes, p: Pool, calls: seq<Call>): (q: Pool)
    requires IsPool(key, p)
    ensures IsPool(key, q)
  {
    if calls == [] then p else Apply(key, After(key, p, calls[..|calls| - 1]), calls[|calls| - 1])
  }

  /** The key of the transaction at this place stands for this place. */
  predicate IsIndexed(key: Bytes -> Bytes, p: Pool, i: nat)
    requires i < |p.txs|
  {
    key(p.txs[i]) in p.at && p.at[key(p.txs[i])] == i
  }

  /** Where the element at place i is after a call, unless the call takes it away. */
  function Moved(key: Bytes -> Bytes, p: Pool, call: Call, i: nat): Option<nat> {
    if call.Added? || key(call.tx) !in p.at || p.at[key(call.tx)] > i then Some(i)
    else if p.at[key(call.tx)] == i then None
    else Some(i - 1)
  }

  function Traced(key: Bytes -> Bytes, p: Pool, calls: seq<Call>, i: nat): Option<nat>
    requires IsPool(key, p)
  {
    if calls == [] then Some(i)
    else
      var m := |calls| - 1;
      match Traced(key, p, calls[..m], i)
      case None => None
      case Some(j) => Moved(key, After(key, p, calls[..m]), calls[m], j)
  }

  /** A call takes only an indexed transaction away, and leaves an unindexed one unindexed. */
  lemma UnindexedIsKept(key: Bytes -> Bytes, p: Pool, call: Call, i: nat)
    requires IsPool(key, p) && i < |p.txs| && !IsIndexed(key, p, i)
    ensures var (q, j) := (Apply(key, p, call), Moved(key, p, call, i));
            j.Some? && j.value < |q.txs| && q.txs[j.value] == p.txs[i] && !IsIndexed(key, q, j.value)
  {
    if call.Removed? && key(call.tx) in p.at {
      var (k, q) := (p.at[key(call.tx)], Remove(key, p, call.tx));
      var x := key(p.txs[i]);
      assert x in q.at ==> x in p.at && p.at[x] != k && p.at[x] != i;
    }
  }

  lemma {:induction false} UnindexedStays(key: Bytes -> Bytes, p: Pool, calls: seq<Call>, i: nat)
    requires IsPool(key, p) && i < |p.txs| && !IsIndexed(key, p, i)
    ensures var (q, j) := (After(key, p, calls), Traced(key, p, calls, i));
            j.Some? && j.value < |q.txs| && q.txs[j.value] == p.txs[i] && !IsIndexed(key, q, j.value)
  {
    hide IsIndexed, Apply, Moved, IsPool;
    if calls != [] {
      var m := |calls| - 1;
      UnindexedStays(key, p, calls[..m], i);
      UnindexedIsKept(key, After(key, p, calls[..m]), calls[m], Traced(key, p, calls[..m], i).value);
    }
  }

  /** Some calls can take a transaction away exactly when it is indexed. */
  lemma RemovableIff(key: Bytes -> Bytes, p: Pool, i: nat)
    requires IsPool(key, p) && i < |p.txs|
    ensures (exists calls :: Traced(key, p, calls, i) == None) <==> IsIndexed(key, p, i)
  {
    hide Traced, IsIndexed, IsPool, After;
    if IsIndexed(key, p, i) {
      IndexedIsTaken(key, p, i);
    } else {
      forall calls ensures Traced(key, p, calls, i) != None { UnindexedStays(key, p, calls, i); }
    }
  }

  lemma IndexedIsTaken(key: Bytes -> Bytes, p: Pool, i: nat)
    requires IsPool(key, p) && i < |p.txs| && IsIndexed(key, p, i)
    ensures Traced(key, p, [Removed(p.txs[i])], i) == None
  {
    var calls := [Removed(p.txs[i])];
    assert calls[..0] == [];
    assert Traced(key, p, calls[..0], i) == Some(i) && After(key, p, calls[..0]) == p;
  }

  /** A transaction whose key is already in the pool takes the key over: the earlier copy stays whatever is added
      and removed afterwards. */
  lemma SecondCopyHidesFirst(key: Bytes -> Bytes, p: Pool, tx: Bytes, calls: seq<Call>)
    requires IsPool(key, p) && key(tx) in p.at
    ensures var (first, q) := (p.at[key(tx)], Add(key, p, tx));
            && IsPool(key, q)
            && var (r, j) := (After(key, q, calls), Traced(key, q, calls, first));
               j.Some? && j.value < |r.txs| && r.txs[j.value] == p.txs[first] && key(r.txs[j.value]) == key(tx)
  {
    AddKeepsPool(key, p, tx);
    UnindexedStays(key, Add(key, p, tx), calls, p.at[key(tx)]);
  }

  // ----- reaping -----

  function Size(txs: seq<Bytes>): nat {
    if txs == [] then 0 else Size(txs[..|txs| - 1]) + |txs[|txs| - 1]|
  }

  lemma {:induction false} SizeGrows(txs: seq<Bytes>, i: nat, j: nat)
    requires i <= j <= |txs|
    ensures Size(txs[..i]) <= Size(txs[..j])
    decreases j - i
  {
    if i < j {
      SizeGrows(txs, i, j - 1);
      assert txs[..j][..j - 1] == txs[..j - 1];
    }
  }

  /** txs[..k] is the longest prefix that is smaller than the limit, or empty if even that is not. */
  predicate IsReaped(txs: seq<Bytes>, limit: int, k: nat) {
    k <= |txs| && (k > 0 ==> Size(txs[..k]) < limit) && forall j :: k < j <= |txs| ==> Size(txs[..j]) >= limit
  }
}
