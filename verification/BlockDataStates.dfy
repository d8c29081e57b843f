/** Part sets and early parts as the program keeps them, in nested maps (urd/consensus/block_datas.go). */
module BlockDataStates {
  import opened Bytes
  import opened MerkleProof
  import opened Parts
  import opened BlockDatas
  import opened NestedMaps

  class BlockData {
    const h: HashFn
    var retain: Time
    var blocks: Nested<Slots>
    var early: Nested<seq<Part>>

    ghost function Abs(): Data
      reads this
    {
      Data(retain, Flat(blocks), Flat(early))
    }

    ghost predicate Valid()
      reads this
    {
      IsData(h, Abs()) && IsTidy(blocks) && IsTidy(early)
    }

    constructor (h: HashFn, start: Time)
      ensures Valid() && this.h == h && Abs() == Data(start, map[], map[])
    {
      hide Flat, IsSet, AreEarly, Before;
      this.h := h;
      retain, blocks, early := start, map[], map[];
      new;
      FlatOfNone<Slots>();
      FlatOfNone<seq<Part>>();
    }

    method AppendPart(p: Part)
      requires Valid() && IsBasic(p)
      modifies this`early
      ensures IsTidy(early)
      ensures Flat(early) == if Before(TimeOf(p), retain) then old(Flat(early)) else old(Flat(early))[TimeOf(p) := Early(old(Abs()), TimeOf(p)) + [p]]
    {
      hide IsBasic, IsData, Flat, IsTidy;
      if Before(TimeOf(p), retain) { return; }
      var k := TimeOf(p);
      FlatOfPut(early, k, Early(Abs(), k) + [p]);
      if p.view !in early {
        early := early[p.view := map[]];
      }
      early := early[p.view := early[p.view][p.round := (if p.round in early[p.view] then early[p.view][p.round] else []) + [p]]];
      assert early == Put(old(early), k, Early(old(Abs()), k) + [p]);
    }

    method AddPart(p: Part)
      requires Valid() && IsBasic(p)
      modifies this
      ensures Valid() && Abs() == BlockDatas.AddPart(h, old(Abs()), p)
    {
      hide Parts.AddPart, Accepts, Flat, IsTidy, AreEarly;
      AddPartKeepsData(h, Abs(), p);
      if Before(TimeOf(p), retain) { return; }
      if p.view !in blocks {
        AppendPart(p);
        return;
      }
      if p.round !in blocks[p.view] {
        AppendPart(p);
        return;
      }
      FlatOfPut(blocks, TimeOf(p), Parts.AddPart(h, blocks[p.view][p.round], p));
      blocks := blocks[p.view := blocks[p.view][p.round := Parts.AddPart(h, blocks[p.view][p.round], p)]];
      assert blocks == Put(old(blocks), TimeOf(p), Parts.AddPart(h, old(blocks)[p.view][p.round], p));
    }

    method AddPartSetHeader(hd: PartSetHeader) returns (ok: bool)
      requires Valid() && IsBasicHeader(hd)
      modifies this
      ensures Valid() && Abs() == BlockDatas.AddHeader(h, old(Abs()), hd)
      ensures ok == (!Before(TimeOfHeader(hd), old(retain)) && TimeOfHeader(hd) !in old(Abs()).blocks)
    {
      hide IsSet, IsBasic, IsBasicHeader, Parts.AddPart, AddAll, Flat, IsTidy, IsData;
      AddHeaderKeepsData(h, Abs(), hd);
      var k := TimeOfHeader(hd);
      if Before(k, retain) { return false; }
      if hd.view in blocks && hd.round in blocks[hd.view] { return false; }
      ghost var d := Abs();
      NewIsSet(h, hd);
      AddNew(hd);
      var waiting: seq<Part> := [];
      if hd.view in early && hd.round in early[hd.view] {
        waiting := early[hd.view][hd.round];
      }
      assert waiting == Early(d, k) && AreEarly(waiting, k) by { EarlyAreBasic(h, d, k); }
      assert hd.total >= 0 by { BasicTotal(hd); }
      AddWaiting(hd, waiting, d);
      ok := true;
    }

    /** The parts that came early, in their order. */
    method AddWaiting(hd: PartSetHeader, waiting: seq<Part>, ghost d: Data)
      requires Valid() && hd.total >= 0 && IsSet(h, NewSlots(hd)) && AreEarly(waiting, TimeOfHeader(hd))
      requires Abs() == d.(blocks := d.blocks[TimeOfHeader(hd) := NewSlots(hd)]) && !Before(TimeOfHeader(hd), retain)
      modifies this
      ensures Valid() && Abs() == d.(blocks := d.blocks[TimeOfHeader(hd) := AddAll(h, NewSlots(hd), waiting)])
    {
      hide IsSet, IsBasic, IsBasicHeader, Parts.AddPart, BlockDatas.AddPart, AddAll, Flat, IsTidy, IsData, Before;
      AddAllOfNone(h, NewSlots(hd));
      for i := 0 to |waiting|
        invariant Valid() && !Before(TimeOfHeader(hd), retain)
        invariant Abs() == d.(blocks := d.blocks[TimeOfHeader(hd) := AddAll(h, NewSlots(hd), waiting[..i])])
      {
        assert waiting[..i + 1] == waiting[..i] + [waiting[i]];
        AddAllOneMore(h, NewSlots(hd), waiting[..i], waiting[i]);
        AddsToSet(h, d, TimeOfHeader(hd), AddAll(h, NewSlots(hd), waiting[..i]), waiting[i]);
        AddPart(waiting[i]);
      }
      assert waiting[..|waiting|] == waiting;
    }

    /** An empty part set for a view and round that have none. */
    method AddNew(hd: PartSetHeader)
      requires Valid() && IsBasicHeader(hd) && !Before(TimeOfHeader(hd), retain) && TimeOfHeader(hd) !in Abs().blocks
      modifies this`blocks
      ensures Valid() && Flat(blocks) == old(Flat(blocks))[TimeOfHeader(hd) := NewSlots(hd)]
    {
      hide IsBasicHeader, IsSet, AreEarly, IsTidy, Flat;
      NewIsSet(h, hd);
      FlatOfPut(blocks, TimeOfHeader(hd), NewSlots(hd));
      if hd.view !in blocks {
        blocks := blocks[hd.view := map[]];
      }
      blocks := blocks[hd.view := blocks[hd.view][hd.round := NewSlots(hd)]];
      assert blocks == Put(old(blocks), TimeOfHeader(hd), NewSlots(hd));
    }

    /** next, with the two loops of prune. */
    method Next(now: Time)
      requires Valid()
      modifies this
      ensures Valid() && Abs() == BlockDatas.Next(old(Abs()), now)
    {
      hide IsSet, Flat, IsTidy, Before;
      ghost var d := Abs();
      NextKeepsData(h, d, now);
      blocks := Prune(blocks, now);
      early := Prune(early, now);
      retain := now;
      assert Flat(blocks) == BlockDatas.Next(d, now).blocks && Flat(early) == BlockDatas.Next(d, now).early;
    }
  }

  lemma BasicTotal(hd: PartSetHeader)
    requires IsBasicHeader(hd)
    ensures hd.total >= 0
  {
  }

  lemma AddsToSet(h: HashFn, d: Data, k: Time, s: Slots, p: Part)
    requires var d1 := d.(blocks := d.blocks[k := s]); IsData(h, d1)
    requires IsBasic(p) && TimeOf(p) == k && !Before(k, d.retain) && IsSet(h, s)
    ensures BlockDatas.AddPart(h, d.(blocks := d.blocks[k := s]), p) == d.(blocks := d.blocks[k := Parts.AddPart(h, s, p)])
  {
    hide IsData, Parts.AddPart;
  }

  lemma EarlyAreBasic(h: HashFn, d: Data, k: Time)
    requires IsData(h, d)
    ensures AreEarly(Early(d, k), k)
  {
    hide IsSet;
  }

  lemma AddAllOfNone(h: HashFn, s: Slots)
    requires IsSet(h, s)
    ensures AddAll(h, s, []) == s
  {
  }
}
