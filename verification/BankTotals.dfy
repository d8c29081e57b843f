/** What a transfer does to the total of all balances. */
module BankTotals {
  import opened Bytes
  import opened Keys
  import opened Bank

  type Entry = (Key, int)

  /** The payments of a transfer in the order in which they are written. */
  function Debits(tx: Transfer, n: nat): seq<Entry>
    requires n <= |tx.from| == |tx.fromMoney|
  {
    if n == 0 then [] else Debits(tx, n - 1) + [(tx.from[n - 1], -(tx.fromMoney[n - 1] as int))]
  }

  function Entries(tx: Transfer, n: nat): seq<Entry>
    requires n <= |tx.to| == |tx.toMoney| && |tx.from| == |tx.fromMoney|
  {
    if n == 0 then Debits(tx, |tx.from|) else Entries(tx, n - 1) + [(tx.to[n - 1], tx.toMoney[n - 1] as int)]
  }

  function AllEntries(tx: Transfer): seq<Entry>
    requires IsValid(tx)
  {
    Entries(tx, |tx.to|)
  }

  function Amounts(es: seq<Entry>): int {
    if es == [] then 0 else Amounts(es[..|es| - 1]) + es[|es| - 1].1
  }

  /** The amount entered last for k. */
  function LastFor(es: seq<Entry>, k: Key): int {
    if es == [] then 0 else if es[|es| - 1].0 == k then es[|es| - 1].1 else LastFor(es[..|es| - 1], k)
  }

  /** The sum of the amounts that a later entry for the same key replaces. */
  function Replaced(es: seq<Entry>): int {
    if es == [] then 0 else Replaced(es[..|es| - 1]) + LastFor(es[..|es| - 1], es[|es| - 1].0)
  }

  predicate AllDistinct(ks: seq<Key>) {
    forall i, j :: 0 <= i < j < |ks| ==> ks[i] != ks[j]
  }

  function TotalOf(b: Balances, ks: seq<Key>): int {
    if ks == [] then 0 else TotalOf(b, ks[..|ks| - 1]) + BalanceOf(b, ks[|ks| - 1])
  }

  function LastOf(es: seq<Entry>, ks: seq<Key>): int {
    if ks == [] then 0 else LastOf(es, ks[..|ks| - 1]) + LastFor(es, ks[|ks| - 1])
  }

  // ----- entries are what is written -----

  /** After the entries, k has its old balance and the amount last entered for it. */
  predicate Reflects(b: Balances, w: Balances, es: seq<Entry>, k: Key) {
    && (k !in w ==> LastFor(es, k) == 0)
    && (k in w ==> w[k] == Wrap(BalanceOf(b, k) + LastFor(es, k)))
  }

  lemma DebitIsWrapped(b: Balances, keys: Key -> bool, tx: Transfer, i: nat)
    requires Succeeds(Ranged(b, keys), {}, tx) && i < |tx.from|
    ensures Debited(Ranged(b, keys), tx.from[i], tx.fromMoney[i]) == Some(Wrap(BalanceOf(b, tx.from[i]) as int - tx.fromMoney[i] as int))
  {
    hide WrappedSum;
  }

  lemma {:induction false} DebitsReflect(b: Balances, keys: Key -> bool, tx: Transfer, n: nat, k: Key)
    requires Succeeds(Ranged(b, keys), {}, tx) && n <= |tx.from|
    ensures Reflects(b, DebitWrites(Ranged(b, keys), tx, n), Debits(tx, n), k)
  {
    hide WrappedSum, Wrap, Debited;
    if n > 0 {
      DebitIsWrapped(b, keys, tx, n - 1);
      DebitsReflect(b, keys, tx, n - 1, k);
      DebitsLength(tx, n - 1);
      assert Debits(tx, n)[..|Debits(tx, n)| - 1] == Debits(tx, n - 1);
    }
  }

  lemma {:induction false} DebitsLength(tx: Transfer, n: nat)
    requires n <= |tx.from| == |tx.fromMoney|
    ensures |Debits(tx, n)| == n
  {
    if n > 0 { DebitsLength(tx, n - 1); }
  }

  lemma {:induction false} EntriesReflect(b: Balances, keys: Key -> bool, tx: Transfer, n: nat, k: Key)
    requires Succeeds(Ranged(b, keys), {}, tx) && n <= |tx.to|
    ensures Reflects(b, CreditWrites(Ranged(b, keys), tx, n), Entries(tx, n), k)
  {
    hide WrappedSum, Wrap, Debited;
    if n > 0 {
      EntriesReflect(b, keys, tx, n - 1, k);
      assert Entries(tx, n)[..|Entries(tx, n)| - 1] == Entries(tx, n - 1);
    } else {
      DebitsReflect(b, keys, tx, |tx.from|, k);
    }
  }

  // ----- sums -----

  lemma WrapAdds(x: int, y: int)
    ensures Wrap(Wrap(x) + y) == Wrap(x + y)
  {
  }

  lemma {:induction false} LastOfNone(ks: seq<Key>)
    ensures LastOf([], ks) == 0
  {
    if ks != [] { LastOfNone(ks[..|ks| - 1]); }
  }

  /** One more entry replaces the last for its key. */
  lemma {:induction false} LastOfOneMore(es: seq<Entry>, e: Entry, ks: seq<Key>)
    requires AllDistinct(ks)
    ensures LastOf(es + [e], ks) == LastOf(es, ks) + if e.0 in ks then e.1 - LastFor(es, e.0) else 0
  {
    assert (es + [e])[..|es + [e]| - 1] == es;
    if ks != [] {
      var m := |ks| - 1;
      LastOfOneMore(es, e, ks[..m]);
      assert ks == ks[..m] + [ks[m]];
    }
  }

  /** The amounts that stand are all amounts but those replaced. */
  lemma {:induction false} LastOfAll(es: seq<Entry>, ks: seq<Key>)
    requires AllDistinct(ks) && forall i :: 0 <= i < |es| ==> es[i].0 in ks
    ensures LastOf(es, ks) == Amounts(es) - Replaced(es)
  {
    if es == [] {
      LastOfNone(ks);
    } else {
      var (front, e) := (es[..|es| - 1], es[|es| - 1]);
      assert es == front + [e];
      LastOfAll(front, ks);
      LastOfOneMore(front, e, ks);
    }
  }

  lemma {:induction false} TotalAfter(b: Balances, w: Balances, es: seq<Entry>, ks: seq<Key>)
    requires forall i :: 0 <= i < |ks| ==> Reflects(b, w, es, ks[i])
    ensures Wrap(TotalOf(b + w, ks)) == Wrap(TotalOf(b, ks) + LastOf(es, ks))
  {
    hide LastFor;
    if ks != [] {
      var (m, k) := (|ks| - 1, ks[|ks| - 1]);
      TotalAfter(b, w, es, ks[..m]);
      assert Reflects(b, w, es, k);
      assert BalanceOf(b + w, k) == Wrap(BalanceOf(b, k) + LastFor(es, k));
      AddWrapped(TotalOf(b + w, ks[..m]), TotalOf(b, ks[..m]) + LastOf(es, ks[..m]), BalanceOf(b, k) + LastFor(es, k));
    }
  }

  lemma AddWrapped(x: int, x': int, y: int)
    requires Wrap(x) == Wrap(x')
    ensures Wrap(x + Wrap(y)) == Wrap(x' + y)
  {
    WrapAdds(x, Wrap(y));
    WrapAdds(x', Wrap(y));
    WrapAdds(y, x');
  }

  lemma {:induction false} WrappedSumIsSum(xs: seq<Money>)
    ensures WrappedSum(xs) == Wrap(PlainSum(xs))
  {
    if xs != [] {
      WrappedSumIsSum(xs[..|xs| - 1]);
      WrapAdds(PlainSum(xs[..|xs| - 1]), xs[|xs| - 1]);
    }
  }

  lemma {:induction false} DebitAmounts(tx: Transfer, n: nat)
    requires n <= |tx.from| == |tx.fromMoney|
    ensures Amounts(Debits(tx, n)) == -PlainSum(tx.fromMoney[..n])
  {
    if n > 0 {
      DebitAmounts(tx, n - 1);
      assert Debits(tx, n)[..|Debits(tx, n)| - 1] == Debits(tx, n - 1);
      assert tx.fromMoney[..n][..n - 1] == tx.fromMoney[..n - 1];
    }
  }

  lemma {:induction false} EntryAmounts(tx: Transfer, n: nat)
    requires n <= |tx.to| == |tx.toMoney| && |tx.from| == |tx.fromMoney|
    ensures Amounts(Entries(tx, n)) == PlainSum(tx.toMoney[..n]) - PlainSum(tx.fromMoney)
  {
    if n > 0 {
      EntryAmounts(tx, n - 1);
      assert Entries(tx, n)[..|Entries(tx, n)| - 1] == Entries(tx, n - 1);
      assert tx.toMoney[..n][..n - 1] == tx.toMoney[..n - 1];
    } else {
      DebitAmounts(tx, |tx.from|);
      assert tx.fromMoney[..|tx.from|] == tx.fromMoney;
    }
  }

  /** The two sums of a valid transfer agree modulo 2^32. */
  lemma ValidAmounts(tx: Transfer)
    requires IsValid(tx)
    ensures Wrap(Amounts(AllEntries(tx))) == 0
  {
    EntryAmounts(tx, |tx.to|);
    assert tx.toMoney[..|tx.to|] == tx.toMoney;
    WrappedSumIsSum(tx.fromMoney);
    WrappedSumIsSum(tx.toMoney);
    WrapOfDifference(PlainSum(tx.toMoney), PlainSum(tx.fromMoney));
  }

  lemma WrapOfDifference(x: int, y: int)
    requires Wrap(x) == Wrap(y)
    ensures Wrap(x - y) == 0
  {
  }

  lemma {:induction false} EntryKeys(tx: Transfer, n: nat, i: nat)
    requires n <= |tx.to| == |tx.toMoney| && |tx.from| == |tx.fromMoney| && i < |Entries(tx, n)|
    ensures Entries(tx, n)[i].0 in KeysOf(tx)
  {
    if n > 0 {
      if i < |Entries(tx, n - 1)| { EntryKeys(tx, n - 1, i); }
    } else {
      DebitKeyAt(tx, |tx.from|, i);
    }
  }

  lemma {:induction false} DebitKeyAt(tx: Transfer, n: nat, i: nat)
    requires n <= |tx.from| == |tx.fromMoney| && i < |Debits(tx, n)|
    ensures Debits(tx, n)[i].0 in tx.from
  {
    DebitsLength(tx, n);
    if n > 0 {
      DebitsLength(tx, n - 1);
      if i < n - 1 { DebitKeyAt(tx, n - 1, i); }
    }
  }

  /** A successful transfer keeps the total modulo 2^32 exactly when the amounts that its own later entries replace
      add up to nothing. */
  lemma TotalKeptIff(b: Balances, keys: Key -> bool, tx: Transfer, ks: seq<Key>)
    requires Succeeds(Ranged(b, keys), {}, tx) && AllDistinct(ks) && KeysOf(tx) <= Elems(ks)
    ensures var b' := b + Writes(Ranged(b, keys), tx);
            Wrap(TotalOf(b', ks)) == Wrap(TotalOf(b, ks)) <==> Wrap(Replaced(AllEntries(tx))) == 0
  {
    hide Replaced, Amounts, LastFor, LastOf, Entries, TotalOf, CreditWrites, KeysOf;
    var es := AllEntries(tx);
    var w := Writes(Ranged(b, keys), tx);
    forall i | 0 <= i < |ks| ensures Reflects(b, w, es, ks[i]) { EntriesReflect(b, keys, tx, |tx.to|, ks[i]); }
    TotalAfter(b, w, es, ks);
    forall i | 0 <= i < |es| ensures es[i].0 in ks { EntryKeys(tx, |tx.to|, i); }
    LastOfAll(es, ks);
    ValidAmounts(tx);
    WrapCancels(TotalOf(b, ks), Amounts(es), Replaced(es));
  }

  lemma WrapCancels(t: int, a: int, r: int)
    requires Wrap(a) == 0
    ensures Wrap(t + (a - r)) == Wrap(t) <==> Wrap(r) == 0
  {
    WrapAdds(a, t - r);
    assert Wrap(t + (a - r)) == Wrap(t - r);
  }

  /** No key twice: nothing is replaced. */
  predicate KeysAreDistinct(tx: Transfer) {
    AllDistinct(tx.from + tx.to)
  }

  lemma {:induction false} NothingReplaced(es: seq<Entry>)
    requires forall i, j :: 0 <= i < j < |es| ==> es[i].0 != es[j].0
    ensures Replaced(es) == 0
    ensures forall k :: (forall i :: 0 <= i < |es| ==> es[i].0 != k) ==> LastFor(es, k) == 0
  {
    if es != [] { NothingReplaced(es[..|es| - 1]); }
  }

  lemma {:induction false} EntryKeyAt(tx: Transfer, n: nat)
    requires n <= |tx.to| == |tx.toMoney| && |tx.from| == |tx.fromMoney|
    ensures |Entries(tx, n)| == |tx.from| + n
    ensures forall i :: 0 <= i < |tx.from| + n ==> Entries(tx, n)[i].0 == (tx.from + tx.to)[i]
  {
    if n > 0 {
      EntryKeyAt(tx, n - 1);
    } else {
      DebitKeysAt(tx, |tx.from|);
    }
  }

  lemma {:induction false} DebitKeysAt(tx: Transfer, n: nat)
    requires n <= |tx.from| == |tx.fromMoney|
    ensures |Debits(tx, n)| == n && forall i :: 0 <= i < n ==> Debits(tx, n)[i].0 == tx.from[i]
  {
    if n > 0 { DebitKeysAt(tx, n - 1); }
  }

  /** A transfer between distinct accounts keeps the total. */
  lemma DistinctKeysKeepTotal(b: Balances, keys: Key -> bool, tx: Transfer, ks: seq<Key>)
    requires Succeeds(Ranged(b, keys), {}, tx) && AllDistinct(ks) && KeysOf(tx) <= Elems(ks) && KeysAreDistinct(tx)
    ensures Wrap(TotalOf(b + Writes(Ranged(b, keys), tx), ks)) == Wrap(TotalOf(b, ks))
  {
    hide Entries, Replaced, TotalOf, CreditWrites, KeysOf;
    EntryKeyAt(tx, |tx.to|);
    NothingReplaced(AllEntries(tx));
    TotalKeptIff(b, keys, tx, ks);
  }

  /** A block whose transfers are all between distinct accounts keeps the total. */
  lemma {:induction false} BlockKeepsTotal(b: Balances, keys: Key -> bool, locks: set<Key>, txs: seq<Tx>, ks: seq<Key>)
    requires AllDistinct(ks)
    requires forall i :: 0 <= i < |txs| && txs[i].Some? ==> KeysOf(txs[i].value) <= Elems(ks) && KeysAreDistinct(txs[i].value)
    ensures Wrap(TotalOf(RunBlock(b, keys, locks, txs), ks)) == Wrap(TotalOf(b, ks))
    decreases |txs|
  {
    hide KeysOf, KeysAreDistinct, TotalOf, Wrap, Writes;
    if txs != [] {
      var (front, tx) := (txs[..|txs| - 1], txs[|txs| - 1]);
      BlockKeepsTotal(b, keys, locks, front, ks);
      var b' := RunBlock(b, keys, locks, front);
      if TxSucceeds(Ranged(b', keys), locks, tx) {
        DistinctKeysKeepTotal(b', keys, tx.value, ks);
      }
    }
  }

  /** A transfer to oneself makes money. */
  lemma SelfTransferMakesMoney(k: Key)
    ensures var tx := Transfer([k], [1], [k], [1]);
            && Succeeds(Ranged(map[], _ => true), {}, tx)
            && TotalOf(map[], [k]) == 1000000
            && TotalOf(map[] + Writes(Ranged(map[], _ => true), tx), [k]) == 1000001
  {
    var tx := Transfer([k], [1], [k], [1]);
    var src := Ranged(map[], _ => true);
    assert WrappedSum([1]) == 1 by { assert [1][..0] == []; }
    assert DebitWrites(src, tx, 1) == map[k := 999999];
    assert CreditWrites(src, tx, 1) == map[k := 1000001];
    assert [k][..0] == [];
  }
}
