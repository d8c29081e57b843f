/** When a transfer goes through, and what it moves, in plain integers (pyramid/abci/minibank/application.go, types.go). */
module BankPayments {
  import opened Bytes
  import opened Keys
  import opened Bank
  import T = BankTotals

  /** The lists match and are not empty, and both sides move the same, modulo 2^32. */
  predicate IsBalanced(tx: Transfer) {
    && |tx.from| == |tx.fromMoney| && |tx.to| == |tx.toMoney| && |tx.from| > 0 && |tx.to| > 0
    && (PlainSum(tx.fromMoney) - PlainSum(tx.toMoney)) % MODULUS == 0
  }

  /** All keys are unlocked and of this shard. */
  predicate IsOpen(keys: Key -> bool, locks: set<Key>, tx: Transfer) {
    && (forall i :: 0 <= i < |tx.from| ==> tx.from[i] !in locks && keys(tx.from[i]))
    && (forall i :: 0 <= i < |tx.to| ==> tx.to[i] !in locks && keys(tx.to[i]))
  }

  /** Every payer has what it is to pay. */
  predicate CanPay(b: Balances, keys: Key -> bool, locks: set<Key>, tx: Transfer) {
    && IsBalanced(tx) && IsOpen(keys, locks, tx)
    && forall i :: 0 <= i < |tx.from| ==> BalanceOf(b, tx.from[i]) >= tx.fromMoney[i]
  }

  lemma SameRest(a: int, b: int)
    ensures a % MODULUS == b % MODULUS <==> (a - b) % MODULUS == 0
  {
  }

  lemma BalancedIsValid(tx: Transfer)
    ensures IsValid(tx) <==> IsBalanced(tx)
  {
    hide WrappedSum, PlainSum;
    T.WrappedSumIsSum(tx.fromMoney);
    T.WrappedSumIsSum(tx.toMoney);
    SameRest(PlainSum(tx.fromMoney), PlainSum(tx.toMoney));
  }

  /** Over the store a transfer succeeds exactly when every payer can pay. */
  lemma SucceedsIffCanPay(b: Balances, keys: Key -> bool, locks: set<Key>, tx: Transfer)
    ensures Succeeds(Ranged(b, keys), locks, tx) <==> CanPay(b, keys, locks, tx)
  {
    hide IsValid, IsBalanced, BalanceOf;
    BalancedIsValid(tx);
    if IsBalanced(tx) {
      assert |tx.from| == |tx.fromMoney| by { BalancedShape(tx); }
      assert forall i :: 0 <= i < |tx.from| && keys(tx.from[i]) ==>
        (Debited(Ranged(b, keys), tx.from[i], tx.fromMoney[i]).Some? <==> BalanceOf(b, tx.from[i]) >= tx.fromMoney[i]);
    }
  }

  lemma BalancedShape(tx: Transfer)
    requires IsBalanced(tx)
    ensures |tx.from| == |tx.fromMoney| && |tx.to| == |tx.toMoney|
  {
  }

  /** From recorded balances it succeeds exactly when every payer whose balance was recorded can pay. */
  lemma ReplaySucceedsIff(data: Balances, locks: set<Key>, tx: Transfer)
    ensures Succeeds(Recorded(data), locks, tx) <==>
            && IsBalanced(tx) && IsOpen(k => true, locks, tx)
            && forall i :: 0 <= i < |tx.from| && tx.from[i] in data ==> data[tx.from[i]] >= tx.fromMoney[i]
  {
    hide IsValid, IsBalanced;
    BalancedIsValid(tx);
    if IsBalanced(tx) {
      assert |tx.from| == |tx.fromMoney| by { BalancedShape(tx); }
      assert forall i :: 0 <= i < |tx.from| ==>
        (Debited(Recorded(data), tx.from[i], tx.fromMoney[i]).Some? <==> (tx.from[i] in data ==> data[tx.from[i]] >= tx.fromMoney[i]));
    }
  }

  // ----- what is moved -----

  /** Payment i is the last entry for its key. */
  predicate IsLastDebit(tx: Transfer, i: nat) {
    i < |tx.from| && (forall j :: i < j < |tx.from| ==> tx.from[j] != tx.from[i]) && tx.from[i] !in tx.to
  }

  predicate IsLastCredit(tx: Transfer, i: nat) {
    i < |tx.to| && forall j :: i < j < |tx.to| ==> tx.to[j] != tx.to[i]
  }

  lemma {:induction false} DebitWritten(src: Source, tx: Transfer, n: nat, i: nat)
    requires i < n <= |tx.from| == |tx.fromMoney| && forall j :: i < j < n ==> tx.from[j] != tx.from[i]
    requires forall j :: 0 <= j < n ==> Debited(src, tx.from[j], tx.fromMoney[j]).Some?
    ensures tx.from[i] in DebitWrites(src, tx, n)
    ensures Some(DebitWrites(src, tx, n)[tx.from[i]]) == Debited(src, tx.from[i], tx.fromMoney[i])
  {
    hide Debited;
    if i < n - 1 { DebitWritten(src, tx, n - 1, i); }
  }

  lemma {:induction false} CreditKeepsDebit(src: Source, tx: Transfer, n: nat, k: Key)
    requires n <= |tx.to| == |tx.toMoney| && |tx.from| == |tx.fromMoney| && forall j :: 0 <= j < n ==> tx.to[j] != k
    requires forall i :: 0 <= i < |tx.from| ==> Debited(src, tx.from[i], tx.fromMoney[i]).Some?
    ensures k in CreditWrites(src, tx, n) <==> k in DebitWrites(src, tx, |tx.from|)
    ensures k in CreditWrites(src, tx, n) ==> CreditWrites(src, tx, n)[k] == DebitWrites(src, tx, |tx.from|)[k]
  {
    hide Debited, Credited;
    if n > 0 { CreditKeepsDebit(src, tx, n - 1, k); }
  }

  lemma {:induction false} CreditWritten(src: Source, tx: Transfer, n: nat, i: nat)
    requires i < n <= |tx.to| == |tx.toMoney| && |tx.from| == |tx.fromMoney| && forall j :: i < j < n ==> tx.to[j] != tx.to[i]
    requires forall i :: 0 <= i < |tx.from| ==> Debited(src, tx.from[i], tx.fromMoney[i]).Some?
    ensures tx.to[i] in CreditWrites(src, tx, n) && CreditWrites(src, tx, n)[tx.to[i]] == Credited(src, tx.to[i], tx.toMoney[i])
  {
    hide Debited, Credited;
    if i < n - 1 { CreditWritten(src, tx, n - 1, i); }
  }

  lemma LastDebitWritten(src: Source, tx: Transfer, i: nat)
    requires Succeeds(src, {}, tx) && |tx.from| == |tx.fromMoney| && |tx.to| == |tx.toMoney| && IsLastDebit(tx, i)
    ensures tx.from[i] in Writes(src, tx) && Some(Writes(src, tx)[tx.from[i]]) == Debited(src, tx.from[i], tx.fromMoney[i])
  {
    hide IsValid, DebitWrites, CreditWrites, Debited;
    DebitWritten(src, tx, |tx.from|, i);
    CreditKeepsDebit(src, tx, |tx.to|, tx.from[i]);
  }

  lemma LastCreditWritten(src: Source, tx: Transfer, i: nat)
    requires Succeeds(src, {}, tx) && |tx.from| == |tx.fromMoney| && |tx.to| == |tx.toMoney| && IsLastCredit(tx, i)
    ensures tx.to[i] in Writes(src, tx) && Writes(src, tx)[tx.to[i]] == Credited(src, tx.to[i], tx.toMoney[i])
  {
    hide IsValid, DebitWrites, CreditWrites, Debited, Credited;
    CreditWritten(src, tx, |tx.to|, i);
  }

  lemma PayerPays(b: Balances, keys: Key -> bool, tx: Transfer, i: nat)
    requires CanPay(b, keys, {}, tx) && Succeeds(Ranged(b, keys), {}, tx) && IsLastDebit(tx, i)
    ensures tx.from[i] in Writes(Ranged(b, keys), tx)
    ensures Writes(Ranged(b, keys), tx)[tx.from[i]] as int + tx.fromMoney[i] as int == BalanceOf(b, tx.from[i])
  {
    hide IsValid, IsBalanced, DebitWrites, CreditWrites;
    var src := Ranged(b, keys);
    assert |tx.from| == |tx.fromMoney| && |tx.to| == |tx.toMoney| by { BalancedShape(tx); }
    LastDebitWritten(src, tx, i);
  }

  lemma PayeeIsPaid(b: Balances, keys: Key -> bool, tx: Transfer, i: nat)
    requires CanPay(b, keys, {}, tx) && Succeeds(Ranged(b, keys), {}, tx) && IsLastCredit(tx, i)
    ensures tx.to[i] in Writes(Ranged(b, keys), tx)
    ensures Writes(Ranged(b, keys), tx)[tx.to[i]] == (BalanceOf(b, tx.to[i]) as int + tx.toMoney[i] as int) % MODULUS
  {
    hide IsValid, IsBalanced, DebitWrites, CreditWrites, Debited;
    var src := Ranged(b, keys);
    assert |tx.from| == |tx.fromMoney| && |tx.to| == |tx.toMoney| by { BalancedShape(tx); }
    LastCreditWritten(src, tx, i);
  }

  /** The whole effect of a transaction on the balances. */
  ghost predicate Moves(b: Balances, b': Balances, tx: Transfer) {
    && |tx.from| == |tx.fromMoney| && |tx.to| == |tx.toMoney|
    && (forall i :: 0 <= i < |tx.from| && IsLastDebit(tx, i) ==> BalanceOf(b', tx.from[i]) as int + tx.fromMoney[i] as int == BalanceOf(b, tx.from[i]))
    && (forall i :: 0 <= i < |tx.to| && IsLastCredit(tx, i) ==> BalanceOf(b', tx.to[i]) == (BalanceOf(b, tx.to[i]) as int + tx.toMoney[i] as int) % MODULUS)
    && (forall k :: k !in tx.from && k !in tx.to ==> BalanceOf(b', k) == BalanceOf(b, k))
  }

  /** If every payer can pay, each payer's last payment leaves exactly its amount and never less than nothing, each payee's
      last is added, and no other balance changes; otherwise no balance changes at all. */
  lemma StepMoves(b: Balances, keys: Key -> bool, locks: set<Key>, tx: Tx)
    ensures var b' := Step(b, keys, locks, tx);
            if tx.Some? && CanPay(b, keys, locks, tx.value) then Moves(b, b', tx.value) else b' == b
  {
    hide Succeeds, CanPay, Writes, IsLastDebit, IsLastCredit;
    if tx.Some? {
      SucceedsIffCanPay(b, keys, locks, tx.value);
      if CanPay(b, keys, locks, tx.value) { PaymentMoves(b, keys, locks, tx.value); }
    }
  }

  lemma PaymentMoves(b: Balances, keys: Key -> bool, locks: set<Key>, tx: Transfer)
    requires CanPay(b, keys, locks, tx)
    ensures Succeeds(Ranged(b, keys), {}, tx) && Moves(b, b + Writes(Ranged(b, keys), tx), tx)
  {
    hide Succeeds, Writes, IsLastDebit, IsLastCredit, CanPay;
    assert CanPay(b, keys, {}, tx) by { NoLocks(b, keys, locks, tx); }
    SucceedsIffCanPay(b, keys, {}, tx);
    WritesKeys(Ranged(b, keys), tx);
    assert |tx.from| == |tx.fromMoney| && |tx.to| == |tx.toMoney| by { NoLocks(b, keys, locks, tx); }
    forall i | 0 <= i < |tx.from| && IsLastDebit(tx, i)
      ensures BalanceOf(b + Writes(Ranged(b, keys), tx), tx.from[i]) as int + tx.fromMoney[i] as int == BalanceOf(b, tx.from[i])
    {
      PayerPays(b, keys, tx, i);
    }
    forall i | 0 <= i < |tx.to| && IsLastCredit(tx, i)
      ensures BalanceOf(b + Writes(Ranged(b, keys), tx), tx.to[i]) == (BalanceOf(b, tx.to[i]) as int + tx.toMoney[i] as int) % MODULUS
    {
      PayeeIsPaid(b, keys, tx, i);
    }
  }

  lemma NoLocks(b: Balances, keys: Key -> bool, locks: set<Key>, tx: Transfer)
    requires CanPay(b, keys, locks, tx)
    ensures CanPay(b, keys, {}, tx) && |tx.from| == |tx.fromMoney| && |tx.to| == |tx.toMoney|
  {
  }

  /** From recorded balances the last entry of a key takes or adds its amount, modulo 2^32; a key that was not recorded starts
      from the initial balance, and a payer that was recorded is left with exactly its amount less. */
  lemma ReplayMoves(data: Balances, tx: Transfer)
    requires Succeeds(Recorded(data), {}, tx)
    ensures var w := Writes(Recorded(data), tx);
            && |tx.from| == |tx.fromMoney| && |tx.to| == |tx.toMoney| && w.Keys == KeysOf(tx)
            && (forall i :: 0 <= i < |tx.from| && IsLastDebit(tx, i) ==>
                  tx.from[i] in w && w[tx.from[i]] == (BalanceOf(data, tx.from[i]) as int - tx.fromMoney[i] as int) % MODULUS
                  && (tx.from[i] in data ==> w[tx.from[i]] as int + tx.fromMoney[i] as int == data[tx.from[i]]))
            && (forall i :: 0 <= i < |tx.to| && IsLastCredit(tx, i) ==>
                  tx.to[i] in w && w[tx.to[i]] == (BalanceOf(data, tx.to[i]) as int + tx.toMoney[i] as int) % MODULUS)
  {
    hide IsValid, DebitWrites, CreditWrites, IsLastDebit, IsLastCredit;
    var src := Recorded(data);
    ValidShape(tx);
    WritesKeys(src, tx);
    forall i | 0 <= i < |tx.from| && IsLastDebit(tx, i) ensures Some(Writes(src, tx)[tx.from[i]]) == Debited(src, tx.from[i], tx.fromMoney[i]) {
      LastDebitWritten(src, tx, i);
    }
    forall i | 0 <= i < |tx.to| && IsLastCredit(tx, i) ensures Writes(src, tx)[tx.to[i]] == Credited(src, tx.to[i], tx.toMoney[i]) {
      LastCreditWritten(src, tx, i);
    }
  }
}
