/** Why proposals must be timely: the engine takes the new head number from the accepted block without
    checking it, so a leader that proposes a block numbered like the current head sends everyone who
    commits it back to a height they have voted at. */
module StaleProposal {
  import opened Bits
  import opened BigEndian
  import opened Crypto
  import opened Validators
  import opened Tally
  import opened Coordinator
  import opened Engine
  import opened Wire
  import opened Gossip
  import opened Voting

  function Zeros(n: nat): (b: Bytes)
    ensures |b| == n
  {
    seq(n, _ => 0)
  }

  function Coinbase(tag: Byte): (b: Bytes)
    ensures |b| == 20
  {
    [tag] + Zeros(19)
  }

  /** 32 bytes of which the first are taken from `b`. */
  function Pad32(b: Bytes): (r: Bytes)
    ensures |r| == 32
  {
    if |b| >= 32 then b[..32] else b + Zeros(32 - |b|)
  }

  // Two validators: the node under observation with 3 of 4 units of stake, and a leader with 1.
  const NODE_KEY := [1] + Zeros(47)
  const NODE := Validator(NODE_KEY, [2] + Zeros(31), 3)
  const LEADER := Validator([3] + Zeros(47), [4] + Zeros(31), 1)
  const VALIDATORS := ValidatorSet([NODE, LEADER], 4)
  const PROOF := LeaderProof(Zeros(32), Zeros(64), Zeros(32))
  const SEED := Zeros(32)

  /** A 32-byte hash that tells beneficiaries and numbers apart. */
  function HeaderHash(h: Header): Bytes {
    Pad32(h.beneficiary + ToBytes(h.number, 8))
  }

  /** Every draw elects the second validator, which can always prove it. */
  const PRIM := Primitives(
    HeaderHash,
    (h: nat, r: nat, s: Bytes) => 3,
    (k: VrfKey, h: nat, r: nat, s: Bytes, pre: Bytes, pf: Bytes) => Some(Zeros(32)),
    (b: Bytes) => Zeros(32),
    (b: Bytes) => Some(b),
    (b: Bytes) => b,
    (b: Block) => [],
    (b: Bytes) => None)

  const CONFIG := Config(PRIM, NODE_KEY, (h: nat, r: nat, s: Bytes) => PROOF, Coinbase(0), 1)

  const GENESIS := Block(Header(Zeros(32), 1, 0, Zeros(32), Coinbase(0), Zeros(32)), [])

  /** The hash of every block of that number with that beneficiary. */
  function BlockHash(number: nat, tag: Byte): Bytes {
    Pad32(Coinbase(tag) + ToBytes(number, 8))
  }

  function Offer(height: nat, round: nat, tag: Byte): Message {
    ProposalMsg(height, round, BlockHash(height, tag), PROOF, Coinbase(tag), [])
  }

  /** The hash separates the beneficiaries. */
  lemma HashesDiffer(number: nat, tag: Byte, number': nat, tag': Byte)
    requires tag != tag'
    ensures BlockHash(number, tag) != BlockHash(number', tag')
  {
    assert BlockHash(number, tag)[0] == tag && BlockHash(number', tag')[0] == tag';
  }

  /** The offers are messages that the wire carries. */
  lemma OfferIsTyped(pc: PointCodec, height: nat, round: nat, tag: Byte)
    requires height <= 2 && round <= 1
    ensures Decodes(pc, Encode(pc, Offer(height, round, tag)), Offer(height, round, tag))
  {
    Widths();
  }

  /** The node awaits a proposal at height 2, round `r`, has voted elsewhere, and holds no buffered votes. */
  ghost predicate Ready(n: Node, r: nat) {
    && EngineInv(PRIM, n.engine) && n.engine.vs == VALIDATORS && n.engine.myIndex == 0 && n.engine.headNumber == 1
    && AwaitsAt(n.engine, r)
    && n.engine.pendingPrevotes == [] && n.engine.pendingPrecommits == []
    && n.flags.prevoted != Some(Position(2, r)) && n.flags.precommitted != Some(Position(2, r))
  }

  predicate AwaitsAt(s: EngineState, r: nat) {
    var c := ActiveCoord(s);
    c.height == 2 && c.round == r && c.stage.NoProposal?
  }

  lemma NodeAloneIsQuorum()
    ensures VALIDATORS.Valid() && DoublingFits(VALIDATORS)
    ensures SetBit(0, 0) == 1 && Members(1) == {0} && IsQuorum(VALIDATORS, {0})
    ensures 3 * StakeOf(VALIDATORS.validators, {1}) <= VALIDATORS.totalStake
    ensures Leader(VALIDATORS.validators, 3) == 1
  {
    var l := VALIDATORS.validators;
    assert l[..1] == [NODE] && l[..1][..0] == [];
    assert TotalOf(l[..1]) == 3 && TotalOf(l) == 4;
    assert StakeOf(l[..1], {0}) == 3 && StakeOf(l, {0}) == 3;
    assert StakeOf(l[..1], {1}) == 0 && StakeOf(l, {1}) == 1;
    assert l[..2] == l;
    LeaderUnique(l, 3, 1);
    SetBitMembers(0, 0);
    ZeroMembers();
  }

  /** A proposal offered to a ready node is accepted, whatever height it names up to the next one. */
  lemma OfferIsAccepted(n: Node, r: nat, height: nat, tag: Byte)
    requires Ready(n, r) && (height == 1 || (height == 2 && r == 0))
    ensures n.engine.vs.Valid() && ActiveCoord(n.engine).vs.Valid()
    ensures var o := NodeStep(CONFIG, n, Receive(Offer(height, r, tag)));
      && o.out == [] && o.node.flags == n.flags
      && o.node.engine.coord == Some(ActiveCoord(n.engine).(stage := CollectingPrevotes(BlockHash(height, tag), 0)))
      && o.node.engine.proposal.Some? && o.node.engine.proposal.value.block.header.number == height
      && HashOf(PRIM, o.node.engine.proposal.value.block) == BlockHash(height, tag)
      && o.node.engine.headNumber == 1 && o.node.engine.vs == VALIDATORS && o.node.engine.myIndex == 0
      && o.node.engine.pendingPrevotes == [] && o.node.engine.pendingPrecommits == []
  {
    NodeAloneIsQuorum();
    ActiveCoordInv(PRIM, n.engine);
    var s := n.engine;
    var block := BuildBlock(CONFIG, s, height, PROOF, Coinbase(tag), []);
    var c := ActiveCoord(s);
    assert ProofOk(PRIM, c, PROOF);
    var d := c.(stage := CollectingPrevotes(BlockHash(height, tag), 0));
    DrainNothing(s.(coord := Some(d), proposal := Some(Proposal(block, PROOF))));
  }

  /** The node's own vote is a quorum, so its PRE-VOTE moves it on at once. */
  lemma PrevoteLocks(n: Node, c: Coord, block: Bytes)
    requires n.engine.vs == VALIDATORS && n.engine.myIndex == 0
    requires n.engine.coord == Some(c.(stage := CollectingPrevotes(block, 0))) && c.vs == VALIDATORS
    requires n.flags.prevoted != Some(Position(c.height, c.round))
    ensures n.engine.vs.Valid() && ActiveCoord(n.engine).vs.Valid()
    ensures var o := NodeStep(CONFIG, n, Advance([]));
      && Statement(Prevote, block, c.height, c.round) in Released(o.out)
      && o.node.engine.coord.Some? && o.node.engine.coord.value.stage.CollectingPrecommits?
      && o.node.engine.coord.value.stage.block == block && o.node.engine.coord.value.stage.voters == 0
      && (var d := o.node.engine.coord.value; d == c.(stage := d.stage, locked := d.locked))
      && o.node.engine == n.engine.(coord := o.node.engine.coord)
      && o.node.flags ==
         n.flags.(prevoted := Some(Position(c.height, c.round)), lastPrevote := o.node.flags.lastPrevote)
  {
    NodeAloneIsQuorum();
    ZeroMembers();
    var d := n.engine.coord.value;
    var v := SignVote(NODE_KEY, VotedOn(d, Prevote), 0);
    assert VoteError(VALIDATORS, VotedOn(d, Prevote), 0, v) == None;
    var o := NodeStep(CONFIG, n, Advance([]));
    assert VoteMsg(Prevote, v) in o.out;
  }

  /** The commit is for that block at that height and round, and its certificate verifies. */
  predicate CommitsAt(c: CommittedBlock, block: Bytes, height: nat, round: nat) {
    && CertOk(VALIDATORS, c.cert) && HashOf(PRIM, c.block) == block
    && c.cert.block == block && c.cert.height == height && c.cert.round == round
  }

  /** Its PRE-COMMIT commits, and the head takes the number of the proposed block. */
  lemma PrecommitCommits(n: Node)
    requires n.engine.vs == VALIDATORS && n.engine.myIndex == 0 && n.engine.proposal.Some?
    requires n.engine.coord.Some? && n.engine.coord.value.vs == VALIDATORS
    requires n.engine.coord.value.stage.CollectingPrecommits? && n.engine.coord.value.stage.voters == 0
    requires n.engine.coord.value.stage.block == HashOf(PRIM, n.engine.proposal.value.block)
    requires n.flags.precommitted != Some(Position(n.engine.coord.value.height, n.engine.coord.value.round))
    ensures n.engine.vs.Valid() && ActiveCoord(n.engine).vs.Valid()
    ensures var c := n.engine.coord.value;
      var o := NodeStep(CONFIG, n, Advance([]));
      var t := o.node;
      && t.engine.headNumber == n.engine.proposal.value.block.header.number
      && t.engine.coord.None? && t.engine.proposal.None? && t.engine.vs == VALIDATORS && t.engine.myIndex == 0
      && t.engine.pendingPrevotes == n.engine.pendingPrevotes
      && t.engine.pendingPrecommits == n.engine.pendingPrecommits
      && t.flags == n.flags.(precommitted := Some(Position(c.height, c.round)), lastPrecommit := t.flags.lastPrecommit)
      && |o.commits| == 1 && CommitsAt(o.commits[0], c.stage.block, c.height, c.round)
  {
    hide HashOf, CertOk;
    NodeAloneIsQuorum();
    ZeroMembers();
    var c := n.engine.coord.value;
    var v := SignVote(NODE_KEY, VotedOn(c, Precommit), 0);
    assert VoteError(VALIDATORS, VotedOn(c, Precommit), 0, v) == None;
    MadeCertVerifies(VALIDATORS, VotedOn(c, Precommit), 1);
  }

  // ---------------------------------------------------------------------------------------
  // Runs with any events
  // ---------------------------------------------------------------------------------------

  lemma {:induction false} RunsCompose(cfg: Config, n: Node, es: seq<NodeEvent>, fs: seq<NodeEvent>)
    requires EngineInv(cfg.prim, n.engine)
    ensures RunNode(cfg, n, es + fs) == Then(RunNode(cfg, n, es), RunNode(cfg, RunNode(cfg, n, es).node, fs))
    decreases |fs|
  {
    hide NodeStep, EngineInv;
    if fs == [] {
      assert es + fs == es;
    } else {
      assert (es + fs)[..|es + fs| - 1] == es + fs[..|fs| - 1];
      RunsCompose(cfg, n, es, fs[..|fs| - 1]);
    }
  }

  lemma OneStep(cfg: Config, n: Node, e: NodeEvent)
    requires EngineInv(cfg.prim, n.engine)
    ensures n.engine.vs.Valid() && ActiveCoord(n.engine).vs.Valid()
    ensures RunNode(cfg, n, [e]) == NodeStep(cfg, n, e)
  {
    hide NodeStep, EngineInv;
    NodeStepKeepsEngineInv(cfg, n, e);
    assert [e][..0] == [];
  }

  lemma StepReleases(cfg: Config, n: Node, es: seq<NodeEvent>, fs: seq<NodeEvent>)
    requires EngineInv(cfg.prim, n.engine)
    ensures Released(RunNode(cfg, n, es + fs).out)
         == Released(RunNode(cfg, n, es).out) + Released(RunNode(cfg, RunNode(cfg, n, es).node, fs).out)
    ensures RunNode(cfg, n, es + fs).node == RunNode(cfg, RunNode(cfg, n, es).node, fs).node
    ensures RunNode(cfg, n, es + fs).commits
         == RunNode(cfg, n, es).commits + RunNode(cfg, RunNode(cfg, n, es).node, fs).commits
  {
    RunsCompose(cfg, n, es, fs);
    ReleasedAppend(RunNode(cfg, n, es).out, RunNode(cfg, RunNode(cfg, n, es).node, fs).out);
  }

  /** The events that make a ready node PRE-VOTE on an offer. */
  function OfferAndVote(height: nat, r: nat, tag: Byte): seq<NodeEvent> {
    [Receive(Offer(height, r, tag))] + [Advance([])]
  }

  lemma OfferIsPrevoted(n: Node, r: nat, height: nat, tag: Byte)
    requires Ready(n, r) && (height == 1 || (height == 2 && r == 0))
    ensures var o := RunNode(CONFIG, n, OfferAndVote(height, r, tag));
      var t := o.node;
      && Statement(Prevote, BlockHash(height, tag), 2, r) in Released(o.out)
      && t.engine.vs == VALIDATORS && t.engine.myIndex == 0
      && t.engine.proposal.Some? && t.engine.proposal.value.block.header.number == height
      && HashOf(PRIM, t.engine.proposal.value.block) == BlockHash(height, tag)
      && t.engine.coord.Some? && t.engine.coord.value.vs == VALIDATORS
      && t.engine.coord.value.stage.CollectingPrecommits?
      && t.engine.coord.value.stage.block == BlockHash(height, tag)
      && t.engine.coord.value.height == 2 && t.engine.coord.value.round == r
      && t.engine.coord.value.stage.CollectingPrecommits? && t.engine.coord.value.stage.voters == 0
      && t.engine.pendingPrevotes == [] && t.engine.pendingPrecommits == []
      && t.flags.prevoted == Some(Position(2, r)) && t.flags.precommitted == n.flags.precommitted
  {
    hide NodeStep, EngineInv, Released, RunNode;
    var e, f := Receive(Offer(height, r, tag)), Advance([]);
    OfferIsAccepted(n, r, height, tag);
    OneStep(CONFIG, n, e);
    var m := NodeStep(CONFIG, n, e).node;
    OneStep(CONFIG, m, f);
    StepReleases(CONFIG, n, [e], [f]);
    ActiveCoordInv(PRIM, n.engine);
    PrevoteLocks(m, ActiveCoord(n.engine), BlockHash(height, tag));
  }

  function WholeRound(height: nat, r: nat, tag: Byte): seq<NodeEvent> {
    OfferAndVote(height, r, tag) + [Advance([])]
  }

  /** The block is committed at height 2, and the head takes its number, stale or not. */
  lemma RoundCommits(n: Node, r: nat, height: nat, tag: Byte)
    requires Ready(n, r) && (height == 1 || (height == 2 && r == 0))
    ensures var o := RunNode(CONFIG, n, WholeRound(height, r, tag));
      var t := o.node;
      && Statement(Prevote, BlockHash(height, tag), 2, r) in Released(o.out)
      && |o.commits| > 0 && CommitsAt(o.commits[|o.commits| - 1], BlockHash(height, tag), 2, r)
      && t.engine.headNumber == height && t.engine.vs == VALIDATORS && t.engine.myIndex == 0
      && t.engine.coord.None? && t.engine.proposal.None?
      && t.engine.pendingPrevotes == [] && t.engine.pendingPrecommits == []
      && t.flags.prevoted == Some(Position(2, r)) && t.flags.precommitted == Some(Position(2, r))
  {
    hide NodeStep, EngineInv, Released, RunNode, BlockHash, HashOf, CommitsAt, Offer;
    OfferIsPrevoted(n, r, height, tag);
    StepReleases(CONFIG, n, OfferAndVote(height, r, tag), [Advance([])]);
    var m := RunNode(CONFIG, n, OfferAndVote(height, r, tag)).node;
    OneStep(CONFIG, m, Advance([]));
    PrecommitCommits(m);
  }

  /** A timeout on a node that has just committed opens round 1. */
  lemma TimeoutOpensRoundOne(n: Node)
    requires EngineInv(PRIM, n.engine) && n.engine.vs == VALIDATORS && n.engine.myIndex == 0 && n.engine.headNumber == 1
    requires n.engine.coord.None? && n.engine.proposal.None?
    requires n.engine.pendingPrevotes == [] && n.engine.pendingPrecommits == []
    requires n.flags.prevoted == Some(Position(2, 0)) && n.flags.precommitted == Some(Position(2, 0))
    ensures Ready(RunNode(CONFIG, n, [ClockFired]).node, 1)
  {
    OneStep(CONFIG, n, ClockFired);
    var s := n.engine;
    DrainNothing(s.(coord := Some(AfterTimeout(ActiveCoord(s))), proposal := None));
  }

  /** Commit a stale block in round 0, time out, commit another in round 1, then commit a timely one in round 0. */
  function StaleRun(): seq<NodeEvent> {
    WholeRound(1, 0, 10) + [ClockFired] + WholeRound(1, 1, 11) + WholeRound(2, 0, 12)
  }

  /** The blocks of the run, and the block it starts from. */
  function Involved(): seq<Bytes> {
    [HashOf(PRIM, GENESIS), BlockHash(1, 10), BlockHash(1, 11), BlockHash(2, 12)]
  }

  /** Two commits at one height and round, both with verifying certificates, for different blocks. */
  ghost predicate Disagree(commits: seq<CommittedBlock>) {
    exists a, b :: a in commits && b in commits
      && CertOk(VALIDATORS, a.cert) && CertOk(VALIDATORS, b.cert)
      && a.cert.height == b.cert.height && a.cert.round == b.cert.round
      && a.cert.block != b.cert.block && HashOf(PRIM, a.block) != HashOf(PRIM, b.block)
  }

  /** When stale blocks are harvested, both the vote discipline and agreement fail, although the faulty stake is
      below one third, every message is one the wire delivers and no two blocks involved share a hash: the node
      releases two different PRE-VOTES, and commits two different blocks, at height 2, round 0. */
  lemma StaleProposalsBreakAgreement(pc: PointCodec)
    ensures var n := FreshNode(CONFIG, VALIDATORS, 0, SEED, GENESIS);
      && EngineInv(PRIM, n.engine)
      && !NoDoubleSign(Released(RunNode(CONFIG, n, StaleRun()).out))
      && Disagree(RunNode(CONFIG, n, StaleRun()).commits)
    ensures 3 * StakeOf(VALIDATORS.validators, {1}) <= VALIDATORS.totalStake
    ensures Delivered(pc, StaleRun())
    ensures forall i, j :: 0 <= i < j < |Involved()| ==> Involved()[i] != Involved()[j]
  {
    hide NodeStep, RunNode, Released, Delivered, StaleRun, EngineInv, BlockHash, HashOf, NoDoubleSign, StakeOf,
      Disagree;
    RunBreaksAgreement();
    RunIsDelivered(pc);
    InvolvedDiffer();
  }

  lemma InvolvedDiffer()
    ensures forall i, j :: 0 <= i < j < |Involved()| ==> Involved()[i] != Involved()[j]
  {
    assert HashOf(PRIM, GENESIS) == BlockHash(1, 0);
    hide BlockHash, HashOf;
    HashesDiffer(1, 0, 1, 10);
    HashesDiffer(1, 0, 1, 11);
    HashesDiffer(1, 0, 2, 12);
    HashesDiffer(1, 10, 1, 11);
    HashesDiffer(1, 10, 2, 12);
    HashesDiffer(1, 11, 2, 12);
  }

  /** Every message received in the run is what its own bytes decode to. */
  ghost predicate Delivered(pc: PointCodec, es: seq<NodeEvent>) {
    forall e :: e in es && e.Receive? ==> Decodes(pc, Encode(pc, e.m), e.m)
  }

  lemma RoundIsDelivered(pc: PointCodec, height: nat, round: nat, tag: Byte)
    requires height <= 2 && round <= 1
    ensures Delivered(pc, OfferAndVote(height, round, tag)) && Delivered(pc, WholeRound(height, round, tag))
  {
    hide Decodes, Encode, Offer;
    OfferIsTyped(pc, height, round, tag);
  }

  lemma RunIsDelivered(pc: PointCodec)
    ensures Delivered(pc, StaleRun())
  {
    hide Decodes, Encode, Offer, WholeRound, OfferAndVote;
    RoundIsDelivered(pc, 1, 0, 10);
    RoundIsDelivered(pc, 1, 1, 11);
    RoundIsDelivered(pc, 2, 0, 12);
  }

  lemma RunBreaksAgreement()
    ensures var n := FreshNode(CONFIG, VALIDATORS, 0, SEED, GENESIS);
      && EngineInv(PRIM, n.engine)
      && !NoDoubleSign(Released(RunNode(CONFIG, n, StaleRun()).out))
      && Disagree(RunNode(CONFIG, n, StaleRun()).commits)
    ensures 3 * StakeOf(VALIDATORS.validators, {1}) <= VALIDATORS.totalStake
  {
    hide NodeStep, Released, RunNode, BlockHash, Offer, HashOf, WholeRound;
    NodeAloneIsQuorum();
    var n := FreshNode(CONFIG, VALIDATORS, 0, SEED, GENESIS);
    FreshIsReady(n);
    var one, two, three := WholeRound(1, 0, 10), WholeRound(1, 1, 11), WholeRound(2, 0, 12);
    RoundCommits(n, 0, 1, 10);
    TimeoutOpensRoundOne(RunNode(CONFIG, n, one).node);
    StepReleases(CONFIG, n, one, [ClockFired]);
    RoundCommits(RunNode(CONFIG, n, one + [ClockFired]).node, 1, 1, 11);
    StepReleases(CONFIG, n, one + [ClockFired], two);
    var c := RunNode(CONFIG, n, one + [ClockFired] + two).node;
    assert AwaitsAt(c.engine, 0);
    RoundCommits(c, 0, 2, 12);
    StepReleases(CONFIG, n, one + [ClockFired] + two, three);
    HashesDiffer(1, 10, 2, 12);
    var all := RunNode(CONFIG, n, StaleRun());
    assert Statement(Prevote, BlockHash(1, 10), 2, 0) in Released(all.out);
    assert Statement(Prevote, BlockHash(2, 12), 2, 0) in Released(all.out);
    var a := RunNode(CONFIG, n, one).commits;
    var b := RunNode(CONFIG, c, three).commits;
    assert a[|a| - 1] in all.commits && b[|b| - 1] in all.commits;
  }

  lemma FreshIsReady(n: Node)
    requires n == FreshNode(CONFIG, VALIDATORS, 0, SEED, GENESIS)
    ensures Ready(n, 0)
  {
    NodeAloneIsQuorum();
  }
}
