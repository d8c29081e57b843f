/** The linked list that many goroutines may walk while it changes (libs/clist/clist.go). Each method that holds
    the locks is one step. A wait group and the channel closed beside it are one latch: it starts unreleased, and
    releasing it twice panics. */
module CLists {
  import opened Bytes

  class CElement {
    const value: Bytes
    var prev: CElement?
    var next: CElement?
    var prevReleased: bool
    var nextReleased: bool
    var removed: bool

    /** Nobody waits for a neighbour that is there, or that will never come. */
    ghost predicate LatchesOk()
      reads this
    {
      (nextReleased <==> next != null || removed) && (prevReleased <==> prev != null || removed)
    }

    constructor (v: Bytes)
      ensures value == v && prev == null && next == null && !removed && LatchesOk()
    {
      value, prev, next, removed := v, null, null, false;
      prevReleased, nextReleased := false, false;
    }

    method ReleaseNext()
      requires !nextReleased
      modifies this`nextReleased
      ensures nextReleased
    {
      nextReleased := true;
    }

    method ReleasePrev()
      requires !prevReleased
      modifies this`prevReleased
      ensures prevReleased
    {
      prevReleased := true;
    }

    /** A fresh latch; nobody may be left waiting at the old one. */
    method RenewNext()
      requires nextReleased
      modifies this`nextReleased
      ensures !nextReleased
    {
      nextReleased := false;
    }

    method RenewPrev()
      requires prevReleased
      modifies this`prevReleased
      ensures !prevReleased
    {
      prevReleased := false;
    }

    method SetNext(newNext: CElement?)
      requires !removed && LatchesOk()
      modifies this`next, this`nextReleased
      ensures next == newNext && LatchesOk()
    {
      var oldNext := next;
      next := newNext;
      if oldNext != null && newNext == null { RenewNext(); }
      if oldNext == null && newNext != null { ReleaseNext(); }
    }

    method SetPrev(newPrev: CElement?)
      requires !removed && LatchesOk()
      modifies this`prev, this`prevReleased
      ensures prev == newPrev && LatchesOk()
    {
      var oldPrev := prev;
      prev := newPrev;
      if oldPrev != null && newPrev == null { RenewPrev(); }
      if oldPrev == null && newPrev != null { ReleasePrev(); }
    }

    /** Removed elements keep their latches released for good. */
    method SetRemoved()
      requires !removed && LatchesOk()
      modifies this`removed, this`prevReleased, this`nextReleased
      ensures removed && LatchesOk()
    {
      removed := true;
      if prev == null { ReleasePrev(); }
      if next == null { ReleaseNext(); }
    }

    /** The source panics on an element that is still in a list. */
    method DetachNext()
      requires removed && LatchesOk()
      modifies this`next
      ensures next == null && LatchesOk()
    {
      next := null;
    }

    method DetachPrev()
      requires removed && LatchesOk()
      modifies this`prev
      ensures prev == null && LatchesOk()
    {
      prev := null;
    }
  }

  function At(s: seq<CElement>, i: int): CElement? {
    if 0 <= i < |s| then s[i] else null
  }

  ghost predicate Distinct(s: seq<CElement>) {
    forall i, j :: 0 <= i < j < |s| ==> s[i] != s[j]
  }

  /** e is in its place. */
  ghost predicate InPlace(s: seq<CElement>, i: nat)
    requires i < |s|
    reads s[i]
  {
    s[i].prev == At(s, i - 1) && s[i].next == At(s, i + 1) && !s[i].removed && s[i].LatchesOk()
  }

  ghost predicate AllInPlace(s: seq<CElement>)
    reads s
  {
    forall i :: 0 <= i < |s| ==> InPlace(s, i)
  }

  class CList {
    var head: CElement?
    var tail: CElement?
    var len: nat
    var released: bool
    const maxLen: nat
    ghost var elems: seq<CElement>
    ghost var gone: set<CElement>

    /** The links and the length follow one sequence of elements; whoever waits for an element of an empty list
        waits at an unreleased latch, and nobody waits at an element that is gone. */
    ghost predicate Valid()
      reads this, elems, gone
    {
      && Distinct(elems) && AllInPlace(elems)
      && head == At(elems, 0) && tail == At(elems, |elems| - 1) && len == |elems| <= maxLen
      && (released <==> elems != [])
      && (forall e :: e in gone ==> e.removed && e.LatchesOk() && e !in elems)
    }

    ghost function Elements(): set<CElement>
      reads this
    {
      set e | e in elems
    }

    constructor (max: nat)
      ensures Valid() && elems == [] && gone == {} && maxLen == max
    {
      head, tail, len, released, maxLen := null, null, 0, false, max;
      elems, gone := [], {};
    }

    method Release()
      requires !released
      modifies this`released
      ensures released
    {
      released := true;
    }

    method Renew()
      requires released
      modifies this`released
      ensures !released
    {
      released := false;
    }

    method Front() returns (e: CElement?)
      requires Valid()
      ensures e == At(elems, 0)
    {
      e := head;
    }

    /** Null where the source panics, which is exactly when the list is full. */
    method PushBack(v: Bytes) returns (e: CElement?)
      requires Valid()
      modifies this, if tail != null then {tail} else {}
      ensures e == null <==> old(len) == maxLen
      ensures e == null ==> elems == old(elems) && len == old(len)
      ensures e != null ==> Valid() && fresh(e) && e.value == v && elems == old(elems) + [e] && gone == old(gone)
    {
      assert elems != [] ==> InPlace(elems, |elems| - 1);
      e := new CElement(v);
      if len == 0 { Release(); }
      if len >= maxLen { return null; }
      len := len + 1;
      if tail == null {
        head, tail := e, e;
      } else {
        e.SetPrev(tail);
        tail.SetNext(e);
        tail := e;
      }
      ghost var s := elems;
      elems := elems + [e];
      forall i | 0 <= i < |elems| ensures InPlace(elems, i) {
        if i < |s| {
          assert old(InPlace(s, i));
          assert elems[i] == s[i] && At(elems, i - 1) == At(s, i - 1);
          if i < |s| - 1 { assert s[i] != s[|s| - 1]; }
        }
      }
    }

    /** Links the neighbours of element k to each other. */
    method Unlink(e: CElement, ghost k: nat)
      requires Distinct(elems) && AllInPlace(elems) && head == At(elems, 0) && tail == At(elems, |elems| - 1)
      requires k < |elems| && elems[k] == e
      modifies this`head, this`tail, if e.prev != null then {e.prev} else {}, if e.next != null then {e.next} else {}
      ensures forall j :: 0 <= j < |elems| && j != k ==> Skips(elems, k, j)
      ensures head == At(Without(elems, k), 0) && tail == At(Without(elems, k), |elems| - 2)
      ensures e.prev == old(e.prev) && e.next == old(e.next) && !e.removed && e.LatchesOk()
    {
      assert InPlace(elems, k);
      var prev, next := e.prev, e.next;
      if prev == null {
        head := next;
      } else {
        assert InPlace(elems, k - 1);
        prev.SetNext(next);
      }
      if next == null {
        tail := prev;
      } else {
        assert InPlace(elems, k + 1) && elems[k + 1] != prev;
        next.SetPrev(prev);
      }
      forall j | 0 <= j < |elems| && j != k ensures Skips(elems, k, j) {
        assert old(InPlace(elems, j));
        assert k > 0 && j != k - 1 ==> elems[j] != elems[k - 1];
        assert k + 1 < |elems| && j != k + 1 ==> elems[j] != elems[k + 1];
      }
    }

    /** None of the panics is reached for an element of the list. */
    method Remove(e: CElement, ghost k: nat) returns (v: Bytes)
      requires Valid() && k < |elems| && elems[k] == e
      modifies this, e, if e.prev != null then {e.prev} else {}, if e.next != null then {e.next} else {}
      ensures Valid() && v == e.value && e.removed
      ensures elems == Without(old(elems), k) && gone == old(gone) + {e}
    {
      assert InPlace(elems, k);
      var prev, next := e.prev, e.next;
      if head == null || tail == null { assert false; }
      if prev == null && head != e { assert false; }
      if next == null && tail != e { assert false; }
      ghost var s := elems;
      assert s[k] == e && e !in gone;
      assert k > 0 ==> s[k - 1] !in gone && s[k - 1] != e;
      assert k + 1 < |s| ==> s[k + 1] !in gone && s[k + 1] != e;
      if len == 1 { Renew(); }
      len := len - 1;
      Unlink(e, k);
      label L: e.SetRemoved();
      forall j | 0 <= j < |s| && j != k ensures Skips(s, k, j) {
        assert old@L(Skips(s, k, j)) && s[j] != e;
      }
      v := e.value;
      elems := Without(s, k);
      gone := gone + {e};
      Relinked(s, k);
    }
  }

  /** The sequence without its element k. */
  function Without(s: seq<CElement>, k: nat): seq<CElement>
    requires k < |s|
  {
    s[..k] + s[k + 1..]
  }

  /** Element j is in its place but for element k, which is passed over. */
  ghost predicate Skips(s: seq<CElement>, k: nat, j: nat)
    requires j < |s|
    reads s[j]
  {
    && s[j].prev == (if j == k + 1 then At(s, k - 1) else At(s, j - 1))
    && s[j].next == (if j == k - 1 then At(s, k + 1) else At(s, j + 1))
    && !s[j].removed && s[j].LatchesOk()
  }

  lemma Relinked(s: seq<CElement>, k: nat)
    requires k < |s| && Distinct(s) && forall j :: 0 <= j < |s| && j != k ==> Skips(s, k, j)
    ensures Distinct(Without(s, k)) && AllInPlace(Without(s, k)) && s[k] !in Without(s, k)
    ensures forall e :: e in Without(s, k) ==> e in s
  {
    var r := Without(s, k);
    forall i | 0 <= i < |r| ensures InPlace(r, i) {
      assert Skips(s, k, if i < k then i else i + 1);
    }
  }
}
