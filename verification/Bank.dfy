/** Transfers of the mini bank, on plain maps (pyramid/abci/minibank/application.go, types.go). A transaction that
    does not decode is None. */
module Bank {
  import opened Bytes
  import opened Keys

  const MODULUS: nat := 0x1_0000_0000
  const INIT_BALANCE: Money := 1000000

  /** A Go uint32. */
  type Money = x: int | 0 <= x < 0x1_0000_0000

  type Balances = map<Key, Money>

  function Wrap(x: int): Money {
    x % MODULUS
  }

  datatype Transfer = Transfer(from: seq<Key>, fromMoney: seq<Money>, to: seq<Key>, toMoney: seq<Money>)

  type Tx = Option<Transfer>

  function PlainSum(xs: seq<int>): int {
    if xs == [] then 0 else PlainSum(xs[..|xs| - 1]) + xs[|xs| - 1]
  }

  function WrappedSum(xs: seq<Money>): Money {
    if xs == [] then 0 else Wrap(WrappedSum(xs[..|xs| - 1]) + xs[|xs| - 1])
  }

  /** ValidateTransferTx */
  predicate IsValid(tx: Transfer) {
    && |tx.from| == |tx.fromMoney| && |tx.to| == |tx.toMoney| && tx.from != [] && tx.to != []
    && WrappedSum(tx.fromMoney) == WrappedSum(tx.toMoney)
  }

  /** The sums of ValidateTransferTx, as it takes them. */
  method SumMoney(xs: seq<Money>) returns (sum: Money)
    ensures sum == WrappedSum(xs)
  {
    sum := 0;
    for i := 0 to |xs|
      invariant sum == WrappedSum(xs[..i])
    {
      assert xs[..i + 1][..i] == xs[..i];
      sum := Wrap(sum + xs[i]);
    }
    assert xs[..|xs|] == xs;
  }

  function BalanceOf(b: Balances, k: Key): Money {
    if k in b then b[k] else INIT_BALANCE
  }

  // ----- one transfer -----

  /** Where balances come from: the store, for the keys of the shard, or the read set recorded with a transaction. */
  datatype Source = Ranged(balances: Balances, keys: Key -> bool) | Recorded(data: Balances)

  function Read(src: Source, k: Key): Option<Money> {
    match src
    case Ranged(b, keys) => if keys(k) then Some(BalanceOf(b, k)) else None
    case Recorded(data) => if k in data then Some(data[k]) else None
  }

  predicate MayWrite(src: Source, k: Key) {
    src.Ranged? ==> src.keys(k)
  }

  /** The new balance of a payer; none if it cannot pay. */
  function Debited(src: Source, k: Key, m: Money): Option<Money> {
    match Read(src, k)
    case None => Some(Wrap(INIT_BALANCE - m))
    case Some(b) => if b < m then None else Some(b - m)
  }

  function Credited(src: Source, k: Key, m: Money): Money {
    match Read(src, k)
    case None => Wrap(INIT_BALANCE + m)
    case Some(b) => Wrap(b + m)
  }

  /** doTransfer succeeds. */
  predicate Succeeds(src: Source, locks: set<Key>, tx: Transfer) {
    && IsValid(tx)
    && (forall i :: 0 <= i < |tx.from| ==> tx.from[i] !in locks && Debited(src, tx.from[i], tx.fromMoney[i]).Some? && MayWrite(src, tx.from[i]))
    && (forall i :: 0 <= i < |tx.to| ==> tx.to[i] !in locks && MayWrite(src, tx.to[i]))
  }

  function DebitWrites(src: Source, tx: Transfer, n: nat): Balances
    requires n <= |tx.from| == |tx.fromMoney|
    requires forall i :: 0 <= i < n ==> Debited(src, tx.from[i], tx.fromMoney[i]).Some?
  {
    if n == 0 then map[]
    else DebitWrites(src, tx, n - 1)[tx.from[n - 1] := Debited(src, tx.from[n - 1], tx.fromMoney[n - 1]).value]
  }

  function CreditWrites(src: Source, tx: Transfer, n: nat): Balances
    requires n <= |tx.to| == |tx.toMoney| && |tx.from| == |tx.fromMoney|
    requires forall i :: 0 <= i < |tx.from| ==> Debited(src, tx.from[i], tx.fromMoney[i]).Some?
  {
    if n == 0 then DebitWrites(src, tx, |tx.from|)
    else CreditWrites(src, tx, n - 1)[tx.to[n - 1] := Credited(src, tx.to[n - 1], tx.toMoney[n - 1])]
  }

  /** What a successful transfer writes: balances are read before any is written, and a later write to a key wins. */
  function Writes(src: Source, tx: Transfer): Balances
    requires Succeeds(src, {}, tx)
  {
    CreditWrites(src, tx, |tx.to|)
  }

  function Elems(ks: seq<Key>): set<Key> {
    set k | k in ks
  }

  function KeysOf(tx: Transfer): set<Key> {
    Elems(tx.from) + Elems(tx.to)
  }

  lemma {:induction false} DebitKeys(src: Source, tx: Transfer, n: nat)
    requires n <= |tx.from| == |tx.fromMoney|
    requires forall i :: 0 <= i < n ==> Debited(src, tx.from[i], tx.fromMoney[i]).Some?
    ensures DebitWrites(src, tx, n).Keys == Elems(tx.from[..n])
  {
    hide Debited;
    if n > 0 {
      DebitKeys(src, tx, n - 1);
      assert tx.from[..n] == tx.from[..n - 1] + [tx.from[n - 1]];
    }
  }

  lemma {:induction false} CreditKeys(src: Source, tx: Transfer, n: nat)
    requires n <= |tx.to| == |tx.toMoney| && |tx.from| == |tx.fromMoney|
    requires forall i :: 0 <= i < |tx.from| ==> Debited(src, tx.from[i], tx.fromMoney[i]).Some?
    ensures CreditWrites(src, tx, n).Keys == Elems(tx.from) + Elems(tx.to[..n])
  {
    hide Debited, Credited;
    if n > 0 {
      CreditKeys(src, tx, n - 1);
      assert tx.to[..n] == tx.to[..n - 1] + [tx.to[n - 1]];
    } else {
      DebitKeys(src, tx, |tx.from|);
      assert tx.from[..|tx.from|] == tx.from;
    }
  }

  /** A transfer writes all its keys. */
  lemma WritesKeys(src: Source, tx: Transfer)
    requires Succeeds(src, {}, tx)
    ensures Writes(src, tx).Keys == KeysOf(tx)
  {
    CreditKeys(src, tx, |tx.to|);
    assert tx.to[..|tx.to|] == tx.to;
  }

  // ----- a block of transfers -----

  predicate TxSucceeds(src: Source, locks: set<Key>, tx: Tx) {
    tx.Some? && Succeeds(src, locks, tx.value)
  }

  /** Only successful transfers change the balances. */
  function Step(b: Balances, keys: Key -> bool, locks: set<Key>, tx: Tx): Balances {
    if TxSucceeds(Ranged(b, keys), locks, tx) then b + Writes(Ranged(b, keys), tx.value) else b
  }

  function RunBlock(b: Balances, keys: Key -> bool, locks: set<Key>, txs: seq<Tx>): Balances
    decreases |txs|
  {
    if txs == [] then b else Step(RunBlock(b, keys, locks, txs[..|txs| - 1]), keys, locks, txs[|txs| - 1])
  }

  /** The balances that a transfer reads. */
  function ReadSet(b: Balances, ks: set<Key>): (r: Balances)
    ensures r.Keys == ks && forall k :: k in ks ==> r[k] == BalanceOf(b, k)
  {
    map k | k in ks :: BalanceOf(b, k)
  }

  lemma ValidShape(tx: Transfer)
    requires IsValid(tx)
    ensures |tx.from| == |tx.fromMoney| && |tx.to| == |tx.toMoney|
  {
  }
}
