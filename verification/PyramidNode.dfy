/** One validator's passage through a height: propose, prevote, precommit, commit (pyramid/consensus/main.go,
    height_datas.go). */
module PyramidNode {
  import opened Bytes
  import opened PyramidVotes

  const NEW_HEIGHT: nat := 1
  const PROPOSE: nat := 3
  const PREVOTE: nat := 4
  const PRECOMMIT: nat := 5
  const COMMIT: nat := 6

  /** What a node keeps of a height that it finished: the hash of the block it executed, and its two vote sets. */
  datatype Record = Record(block: Bytes, prevotes: Tally, precommits: Tally)

  /** block is the hash of the proposed block once all its parts are in. */
  datatype Node = Node(
    height: nat, step: nat, pass: nat, block: Option<Bytes>, prevotes: Tally, precommits: Tally, log: seq<Record>)

  /** The votes that a node sends out. */
  datatype Out = Out(prevotes: set<Vote>, precommits: set<Vote>)

  const SILENT: Out := Out({}, {})

  /** The weights of the validators, and this node's place among them. */
  datatype Seat = Seat(w: seq<nat>, me: nat)

  predicate FinishesProposal(d: Node) {
    d.pass >= PROPOSE || d.block.Some?
  }

  predicate FinishesPrevote(d: Node) {
    d.pass >= PREVOTE || (FinishesProposal(d) && d.prevotes.majority.Some?)
  }

  predicate FinishesPrecommit(d: Node) {
    d.pass >= PRECOMMIT || (FinishesPrevote(d) && d.precommits.majority.Some?)
  }

  /** GetMaj23: nothing found reads as the empty hash, rejected. */
  function MajorityPair(t: Tally): Pair {
    if t.majority.Some? then t.majority.value else ([], false)
  }

  function AddOwn(s: Seat, t: Tally, v: Vote): Tally
    requires s.me < |s.w| && v.index == s.me
  {
    AddVote(t, v, s.w[s.me], Total(s.w))
  }

  function OwnPrevote(s: Seat, d: Node, ok: bool): Vote {
    Vote(d.height, s.me, if d.block.Some? then d.block.value else [], ok)
  }

  /** doPropose: ok is what executing the block in advance said. */
  function DoPropose(s: Seat, d: Node, ok: bool): Node
    requires s.me < |s.w|
  {
    d.(step := PREVOTE, pass := if d.pass >= PROPOSE then d.pass else PROPOSE, prevotes := AddOwn(s, d.prevotes, OwnPrevote(s, d, ok)))
  }

  function OwnPrecommit(s: Seat, d: Node): Vote {
    Vote(d.height, s.me, MajorityPair(d.prevotes).0, MajorityPair(d.prevotes).1)
  }

  /** doPrevote */
  function DoPrevote(s: Seat, d: Node): Node
    requires s.me < |s.w|
  {
    d.(step := PRECOMMIT, pass := if d.pass >= PREVOTE then d.pass else PREVOTE, precommits := AddOwn(s, d.precommits, OwnPrecommit(s, d)))
  }

  /** doPrecommit: the block at hand is executed. */
  function DoPrecommit(d: Node): Node {
    d.(step := COMMIT, pass := if d.pass >= PRECOMMIT then d.pass else PRECOMMIT,
       log := d.log + [Record(if d.block.Some? then d.block.value else [], d.prevotes, d.precommits)])
  }

  /** handleStateTransition, up to the gate at the end of the height. A failed check leaves its mark in pass only
      where an earlier check of the same call succeeded. */
  function Drive(s: Seat, d: Node, ok: bool): Node
    requires s.me < |s.w|
    decreases COMMIT - d.step
  {
    if d.step == PROPOSE then (if FinishesProposal(d) then Drive(s, DoPropose(s, d, ok), ok) else d)
    else if d.step == PREVOTE then
      (if FinishesPrevote(d) then Drive(s, DoPrevote(s, d), ok)
       else if FinishesProposal(d) && d.pass < PROPOSE then d.(pass := PROPOSE) else d)
    else if d.step == PRECOMMIT then
      (if FinishesPrecommit(d) then Drive(s, DoPrecommit(d), ok)
       else if FinishesPrevote(d) && d.pass < PREVOTE then d.(pass := PREVOTE)
       else if FinishesProposal(d) && d.pass < PROPOSE then d.(pass := PROPOSE) else d)
    else d
  }

  /** The votes cast on the way. */
  function Cast(s: Seat, d: Node, ok: bool): Out
    requires s.me < |s.w|
    decreases COMMIT - d.step
  {
    if d.step == PROPOSE && FinishesProposal(d) then
      var out := Cast(s, DoPropose(s, d, ok), ok);
      out.(prevotes := out.prevotes + {OwnPrevote(s, d, ok)})
    else if d.step == PREVOTE && FinishesPrevote(d) then SILENT.(precommits := {OwnPrecommit(s, d)})
    else SILENT
  }

  // ----- handlers -----

  /** The last part of a proposed block arrives. */
  function TakeBlock(d: Node, hash: Bytes): Node {
    if d.block.Some? then d else d.(block := Some(hash))
  }

  predicate Counts(s: Seat, d: Node, v: Vote) {
    v.height == d.height && v.index < |s.w|
  }

  function TakePrevote(s: Seat, d: Node, v: Vote): Node
    requires Counts(s, d, v)
  {
    d.(prevotes := AddVote(d.prevotes, v, s.w[v.index], Total(s.w)))
  }

  function TakePrecommit(s: Seat, d: Node, v: Vote): Node
    requires Counts(s, d, v)
  {
    d.(precommits := AddVote(d.precommits, v, s.w[v.index], Total(s.w)))
  }

  /** enterNewHeight, once the gate opens. */
  function NewHeight(d: Node): Node {
    Node(d.height + 1, PROPOSE, NEW_HEIGHT, None, NO_VOTES, NO_VOTES, d.log)
  }

  const START: Node := Node(0, PROPOSE, NEW_HEIGHT, None, NO_VOTES, NO_VOTES, [])
}
