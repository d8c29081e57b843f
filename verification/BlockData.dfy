/** Part sets and early parts by view and round (urd/consensus/block_datas.go). Here a view and a round make one key;
    BlockDataStates keeps the two nested maps of the program. */
module BlockDatas {
  import opened Bytes
  import opened MerkleProof
  import opened Parts

  /** A view and a round. */
  type Time = (int, int)

  datatype Data = Data(retain: Time, blocks: map<Time, Slots>, early: map<Time, seq<Part>>)

  predicate Before(a: Time, b: Time) {
    a.0 < b.0 || (a.0 == b.0 && a.1 < b.1)
  }

  function TimeOf(p: Part): Time {
    (p.view, p.round)
  }

  function TimeOfHeader(hd: PartSetHeader): Time {
    (hd.view, hd.round)
  }

  function Early(d: Data, k: Time): seq<Part> {
    if k in d.early then d.early[k] else []
  }

  /** Part sets and early parts are where they belong, and nothing is older than the retained view and round. */
  ghost predicate IsData(h: HashFn, d: Data) {
    && (forall k :: k in d.blocks ==> IsSet(h, d.blocks[k]) && TimeOfHeader(d.blocks[k].header) == k && !Before(k, d.retain))
    && (forall k :: k in d.early ==> AreEarly(d.early[k], k) && !Before(k, d.retain))
  }

  predicate AreEarly(ps: seq<Part>, k: Time) {
    forall i :: 0 <= i < |ps| ==> IsBasic(ps[i]) && TimeOf(ps[i]) == k
  }

  /** addPart: a part without its header is kept for later. */
  function AddPart(h: HashFn, d: Data, p: Part): Data
    requires IsData(h, d) && IsBasic(p)
  {
    var k := TimeOf(p);
    if Before(k, d.retain) then d
    else if k !in d.blocks then d.(early := d.early[k := Early(d, k) + [p]])
    else d.(blocks := d.blocks[k := Parts.AddPart(h, d.blocks[k], p)])
  }

  /** addPartSetHeader: the parts that came early are added at once. */
  function AddHeader(h: HashFn, d: Data, hd: PartSetHeader): Data
    requires IsData(h, d) && IsBasicHeader(hd)
  {
    var k := TimeOfHeader(hd);
    if Before(k, d.retain) || k in d.blocks then d
    else NewIsSet(h, hd); d.(blocks := d.blocks[k := AddAll(h, NewSlots(hd), Early(d, k))])
  }

  /** prune keeps what is not before the given view and round; next then retains from there. */
  function Next(d: Data, now: Time): Data {
    Data(now, map k | k in d.blocks && !Before(k, now) :: d.blocks[k], map k | k in d.early && !Before(k, now) :: d.early[k])
  }

  lemma AddPartKeepsData(h: HashFn, d: Data, p: Part)
    requires IsData(h, d) && IsBasic(p)
    ensures IsData(h, AddPart(h, d, p))
  {
    hide IsSet, IsBasic;
    var k := TimeOf(p);
    if !Before(k, d.retain) && k in d.blocks { AddKeepsSet(h, d.blocks[k], p); }
  }

  lemma AddHeaderKeepsData(h: HashFn, d: Data, hd: PartSetHeader)
    requires IsData(h, d) && IsBasicHeader(hd)
    ensures IsData(h, AddHeader(h, d, hd))
  {
    hide IsSet, IsBasic, IsBasicHeader, AddAll;
    NewIsSet(h, hd);
  }

  lemma NextKeepsData(h: HashFn, d: Data, now: Time)
    requires IsData(h, d)
    ensures IsData(h, Next(d, now))
    ensures forall k :: k in Next(d, now).blocks <==> k in d.blocks && !Before(k, now)
    ensures forall k :: k in Next(d, now).early <==> k in d.early && !Before(k, now)
  {
    hide IsSet;
  }

  // ----- runs -----

  datatype Arrival = HeaderArrives(header: PartSetHeader) | PartArrives(part: Part) | ViewEnds(now: Time)

  predicate IsBasicArrival(e: Arrival) {
    match e
    case HeaderArrives(hd) => IsBasicHeader(hd)
    case PartArrives(p) => IsBasic(p)
    case ViewEnds(_) => true
  }

  predicate AreBasic(es: seq<Arrival>) {
    forall i :: 0 <= i < |es| ==> IsBasicArrival(es[i])
  }

  function Apply(h: HashFn, d: Data, e: Arrival): (d': Data)
    requires IsData(h, d) && IsBasicArrival(e)
    ensures IsData(h, d')
  {
    match e
    case HeaderArrives(hd) => AddHeaderKeepsData(h, d, hd); AddHeader(h, d, hd)
    case PartArrives(p) => AddPartKeepsData(h, d, p); AddPart(h, d, p)
    case ViewEnds(now) => NextKeepsData(h, d, now); Next(d, now)
  }

  function Run(h: HashFn, start: Time, es: seq<Arrival>): (d: Data)
    requires AreBasic(es)
    ensures IsData(h, d)
    decreases |es|
  {
    if es == [] then Data(start, map[], map[])
    else assert Last(es) == es[|es| - 1]; Apply(h, Run(h, start, Front(es)), Last(es))
  }

  /** The first header for k. */
  function HeaderOf(es: seq<Arrival>, k: Time): Option<PartSetHeader>
    decreases |es|
  {
    if es == [] then None
    else if HeaderOf(Front(es), k).Some? then HeaderOf(Front(es), k)
    else if Last(es).HeaderArrives? && TimeOfHeader(Last(es).header) == k then Some(Last(es).header)
    else None
  }

  /** The parts for k, as they came. */
  function PartsOf(es: seq<Arrival>, k: Time): seq<Part>
    decreases |es|
  {
    if es == [] then []
    else if Last(es).PartArrives? && TimeOf(Last(es).part) == k then PartsOf(Front(es), k) + [Last(es).part]
    else PartsOf(Front(es), k)
  }

  /** k is never too old. */
  predicate StaysOpen(start: Time, es: seq<Arrival>, k: Time) {
    !Before(k, start) && forall i :: 0 <= i < |es| && es[i].ViewEnds? ==> !Before(k, es[i].now)
  }

  lemma {:induction false} PartsOfAreEarly(es: seq<Arrival>, k: Time)
    requires AreBasic(es)
    ensures AreEarly(PartsOf(es, k), k)
    ensures HeaderOf(es, k).Some? ==> IsBasicHeader(HeaderOf(es, k).value)
    decreases |es|
  {
    hide IsBasic, IsBasicHeader;
    if es != [] {
      assert IsBasicArrival(es[|es| - 1]);
      PartsOfAreEarly(Front(es), k);
    }
  }

  /** What the data holds for k. */
  ghost predicate Holds(h: HashFn, d: Data, k: Time, hd: Option<PartSetHeader>, ps: seq<Part>)
    requires AreEarly(ps, k)
  {
    if hd.None? then k !in d.blocks && Early(d, k) == ps
    else IsBasicHeader(hd.value) && IsSet(h, NewSlots(hd.value)) && k in d.blocks && d.blocks[k] == AddAll(h, NewSlots(hd.value), ps)
  }

  lemma AddAllOneMore(h: HashFn, s: Slots, ps: seq<Part>, p: Part)
    requires IsSet(h, s) && IsBasic(p) && forall i :: 0 <= i < |ps| ==> IsBasic(ps[i])
    ensures AddAll(h, s, ps + [p]) == Parts.AddPart(h, AddAll(h, s, ps), p)
  {
    hide IsSet, IsBasic, Parts.AddPart;
    assert (ps + [p])[..|ps + [p]| - 1] == ps;
  }

  lemma PartKeepsHolding(h: HashFn, d: Data, k: Time, hd: Option<PartSetHeader>, ps: seq<Part>, p: Part)
    requires IsData(h, d) && AreEarly(ps, k) && Holds(h, d, k, hd, ps) && IsBasic(p) && !Before(k, d.retain)
    ensures var ps' := if TimeOf(p) == k then ps + [p] else ps;
            AreEarly(ps', k) && Holds(h, AddPart(h, d, p), k, hd, ps')
  {
    hide IsSet, IsBasic, AddAll, IsData;
    if TimeOf(p) == k && hd.Some? {
      AddAllOneMore(h, NewSlots(hd.value), ps, p);
    }
  }

  lemma HeaderKeepsHolding(h: HashFn, d: Data, k: Time, hd: Option<PartSetHeader>, ps: seq<Part>, late: PartSetHeader)
    requires IsData(h, d) && AreEarly(ps, k) && Holds(h, d, k, hd, ps) && IsBasicHeader(late) && !Before(k, d.retain)
    ensures Holds(h, AddHeader(h, d, late), k, if hd.None? && TimeOfHeader(late) == k then Some(late) else hd, ps)
  {
    hide IsSet, IsBasic, AddAll, IsData;
    NewIsSet(h, late);
  }

  lemma NextKeepsHolding(h: HashFn, d: Data, k: Time, hd: Option<PartSetHeader>, ps: seq<Part>, now: Time)
    requires AreEarly(ps, k) && Holds(h, d, k, hd, ps) && !Before(k, now)
    ensures Holds(h, Next(d, now), k, hd, ps)
  {
    hide IsSet, IsBasic, AddAll;
  }

  lemma {:induction false} RetainOfRun(h: HashFn, start: Time, es: seq<Arrival>, k: Time)
    requires AreBasic(es) && StaysOpen(start, es, k)
    ensures !Before(k, Run(h, start, es).retain)
    decreases |es|
  {
    hide Before, IsData, AddAll, Parts.AddPart;
    if es != [] {
      assert es[|es| - 1] == Last(es);
      RetainOfRun(h, start, Front(es), k);
    }
  }

  /** Whatever arrives: for every view and round that is not over, the part set is what the first header and then
      the parts in their order would have made, wherever the header came. */
  lemma {:induction false} ArrivalOrder(h: HashFn, start: Time, es: seq<Arrival>, k: Time)
    requires AreBasic(es) && StaysOpen(start, es, k)
    ensures AreEarly(PartsOf(es, k), k)
    ensures Holds(h, Run(h, start, es), k, HeaderOf(es, k), PartsOf(es, k))
    decreases |es|
  {
    hide Before, IsData, AddAll, IsBasic, IsBasicHeader, IsSet, Holds, AddPart, AddHeader, Next;
    PartsOfAreEarly(es, k);
    if es == [] {
      assert Holds(h, Run(h, start, es), k, None, []) by { NothingHeld(h, start, k); }
    } else {
      var (front, last) := (Front(es), Last(es));
      assert es[|es| - 1] == last;
      assert StaysOpen(start, front, k);
      ArrivalOrder(h, start, front, k);
      RetainOfRun(h, start, front, k);
      var d := Run(h, start, front);
      match last
      case HeaderArrives(hd) => HeaderKeepsHolding(h, d, k, HeaderOf(front, k), PartsOf(front, k), hd);
      case PartArrives(p) => PartKeepsHolding(h, d, k, HeaderOf(front, k), PartsOf(front, k), p);
      case ViewEnds(now) => NextKeepsHolding(h, d, k, HeaderOf(front, k), PartsOf(front, k), now);
    }
  }

  lemma NothingHeld(h: HashFn, start: Time, k: Time)
    ensures Holds(h, Data(start, map[], map[]), k, None, [])
  {
  }

  /** Two runs with the same first header and the same parts for k end with the same part set for k. */
  lemma HeaderMayComeLate(h: HashFn, start: Time, es: seq<Arrival>, es': seq<Arrival>, k: Time)
    requires AreBasic(es) && StaysOpen(start, es, k) && AreBasic(es') && StaysOpen(start, es', k)
    requires HeaderOf(es, k).Some? && HeaderOf(es, k) == HeaderOf(es', k) && PartsOf(es, k) == PartsOf(es', k)
    ensures k in Run(h, start, es).blocks && k in Run(h, start, es').blocks
    ensures Run(h, start, es).blocks[k] == Run(h, start, es').blocks[k]
  {
    hide Run, AddAll, PartsOf, HeaderOf, IsSet, IsBasic;
    ArrivalOrder(h, start, es, k);
    ArrivalOrder(h, start, es', k);
  }

  /** k is too old from some point on. */
  predicate IsOver(start: Time, es: seq<Arrival>, k: Time)
    decreases |es|
  {
    if es == [] then Before(k, start) else if Last(es).ViewEnds? then Before(k, Last(es).now) else IsOver(start, Front(es), k)
  }

  /** Once a view and round are over, nothing is kept for them, whatever still arrives. */
  lemma {:induction false} OverIsGone(h: HashFn, start: Time, es: seq<Arrival>, k: Time)
    requires AreBasic(es) && IsOver(start, es, k)
    ensures k !in Run(h, start, es).blocks && k !in Run(h, start, es).early && Before(k, Run(h, start, es).retain)
    decreases |es|
  {
    hide Before, IsSet, AddAll, Parts.AddPart;
    if es != [] {
      assert es[|es| - 1] == Last(es);
      if !Last(es).ViewEnds? { OverIsGone(h, start, Front(es), k); }
    }
  }
}
