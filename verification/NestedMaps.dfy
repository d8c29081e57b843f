/** Maps of maps, by view and then by round. */
module NestedMaps {
  import opened BlockDatas

  type Nested<T> = map<int, map<int, T>>

  /** The entries under their view and round. */
  function Flat<T>(m: Nested<T>): (r: map<Time, T>)
    ensures forall k: Time :: k in r <==> k.0 in m && k.1 in m[k.0]
    ensures forall k: Time :: k in r ==> r[k] == m[k.0][k.1]
  {
    map v, i | v in m && i in m[v] :: (v, i) := m[v][i]
  }

  /** No view is there without a round. */
  predicate IsTidy<T(!new)>(m: Nested<T>) {
    forall v :: v in m ==> m[v].Keys != {}
  }

  function Put<T>(m: Nested<T>, k: Time, x: T): Nested<T> {
    m[k.0 := (if k.0 in m then m[k.0] else map[])[k.1 := x]]
  }

  lemma FlatOfNone<T(!new)>()
    ensures Flat<T>(map[]) == map[]
  {
    hide Flat;
  }

  lemma FlatOfPut<T(!new)>(m: Nested<T>, k: Time, x: T)
    ensures Flat(Put(m, k, x)) == Flat(m)[k := x]
    ensures IsTidy(m) ==> IsTidy(Put(m, k, x))
  {
    hide Flat;
    var (p, f) := (Put(m, k, x), Flat(m)[k := x]);
    assert k.1 in p[k.0].Keys && p[k.0][k.1] == x && Flat(p)[k] == x;
    forall q: Time ensures q in Flat(p) <==> q in f {
      assert k == (k.0, k.1) && q == (q.0, q.1);
    }
    forall q | q in f ensures Flat(p)[q] == f[q] {
      assert k == (k.0, k.1) && q == (q.0, q.1);
    }
  }

  lemma SomeMember(s: set<int>)
    requires s != {}
    ensures exists i :: i in s
  {
    assert (forall i :: i !in s) ==> s == {};
  }

  /** The rounds of the view that are not over. */
  method PruneRounds<T>(rounds: map<int, T>, round: int) returns (r: map<int, T>)
    ensures r.Keys == set i | i in rounds && i >= round
    ensures forall i :: i in r ==> r[i] == rounds[i]
  {
    r := rounds;
    var todo := rounds.Keys;
    while todo != {}
      invariant todo <= r.Keys
      invariant r.Keys <= rounds.Keys
      invariant forall i :: i in rounds && i !in todo ==> (i in r <==> i >= round)
      invariant forall i :: i in r ==> r[i] == rounds[i]
      decreases |todo|
    {
      SomeMember(todo);
      var i :| i in todo;
      todo := todo - {i};
      if i < round {
        r := r - {i};
      }
    }
  }

  /** What prune leaves of view v. */
  ghost predicate IsPruned<T(!new)>(m: Nested<T>, r: Nested<T>, now: Time, v: int) {
    && (v in r ==> v in m && v >= now.0 && r[v].Keys != {})
    && (v in m ==> forall i :: (v in r && i in r[v]) <==> i in m[v] && !Before((v, i), now))
    && (v in m && v in r ==> forall i :: i in r[v] && i in m[v] ==> r[v][i] == m[v][i])
  }

  /** One of the two loops of prune: old views go, then old rounds of the current view, and then the current view if
      no round is left in it. */
  method Prune<T(!new)>(m: Nested<T>, now: Time) returns (r: Nested<T>)
    requires IsTidy(m)
    ensures IsTidy(r) && Flat(r).Keys == set k | k in Flat(m) && !Before(k, now)
    ensures forall k :: k in Flat(r) ==> Flat(r)[k] == Flat(m)[k]
  {
    r := m;
    var todo := m.Keys;
    while todo != {}
      invariant r.Keys <= m.Keys && forall v :: v in todo ==> v in r
      invariant forall v :: v in todo ==> r[v] == m[v]
      invariant forall v :: v in m && v !in todo ==> IsPruned(m, r, now, v)
      decreases |todo|
    {
      SomeMember(todo);
      var v :| v in todo;
      todo := todo - {v};
      ghost var before := r;
      r := PruneView(m, r, now, v);
      forall u | u in m && u !in todo ensures IsPruned(m, r, now, u) {
        if u != v { PrunedStays(m, before, r, now, u); }
      }
    }
    PrunedIsFlat(m, r, now);
  }

  method PruneView<T(!new)>(ghost m: Nested<T>, before: Nested<T>, now: Time, v: int) returns (r: Nested<T>)
    requires v in m && v in before && before[v] == m[v] && m[v].Keys != {}
    ensures IsPruned(m, r, now, v) && r.Keys <= before.Keys && forall u :: u != v ==> (u in r <==> u in before)
    ensures forall u :: u in r && u != v ==> u in before && r[u] == before[u]
  {
    r := before;
    if v < now.0 {
      r := r - {v};
    } else if v == now.0 {
      var rounds := PruneRounds(r[v], now.1);
      r := r[v := rounds];
      if |rounds| == 0 {
        assert rounds == map[];
        r := r - {v};
      }
    }
  }

  lemma PrunedStays<T(!new)>(m: Nested<T>, before: Nested<T>, r: Nested<T>, now: Time, u: int)
    requires IsPruned(m, before, now, u) && (u in r <==> u in before) && (u in r ==> r[u] == before[u])
    ensures IsPruned(m, r, now, u)
  {
  }

  lemma PrunedIsFlat<T(!new)>(m: Nested<T>, r: Nested<T>, now: Time)
    requires r.Keys <= m.Keys && forall v :: v in m ==> IsPruned(m, r, now, v)
    ensures IsTidy(r) && Flat(r).Keys == set k | k in Flat(m) && !Before(k, now)
    ensures forall k :: k in Flat(r) ==> Flat(r)[k] == Flat(m)[k]
  {
    hide Before;
    forall v | v in r ensures r[v].Keys != {} { assert IsPruned(m, r, now, v); }
    forall k: Time ensures k in Flat(r) <==> k in Flat(m) && !Before(k, now) {
      assert k == (k.0, k.1);
      if k.0 in m { assert IsPruned(m, r, now, k.0); }
    }
    forall k | k in Flat(r) ensures Flat(r)[k] == Flat(m)[k] { assert IsPruned(m, r, now, k.0); }
  }
}
