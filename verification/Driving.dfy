/** What moves a round along: timeouts open the next round, the drawn leader proposes, every validator votes for the
    block it holds, latest messages are repeated, and late proposals disturb nothing. */
module Driving {
  import opened Bits
  import opened Crypto
  import opened Validators
  import opened Tally
  import opened Coordinator
  import opened Engine
  import opened Delivery
  import opened Wire
  import opened Chain
  import opened Gossip
  import opened Offers
  import opened Proposals

  // ---------------------------------------------------------------------------------------
  // Timeouts
  // ---------------------------------------------------------------------------------------

  /** Below the last round, a timeout before the commit takes the engine to exactly the next round of the same height,
      awaiting a proposal; the stored proposal is gone, the lock is kept, and the votes waiting are exactly those that
      were and are not stale. */
  lemma TimeoutMovesOn(prim: Primitives, s: EngineState)
    requires EngineInv(prim, s) && !ActiveCoord(s).stage.Done? && ActiveCoord(s).round < U32_MAX
    ensures var c := ActiveCoord(s);
      var t := AfterTickTimeout(s);
      && t.coord == Some(Coord(c.height, c.round + 1, c.vs, c.seed, NoProposal, c.locked))
      && t.proposal.None? && SameChain(s, t) && t.vs == s.vs && t.myIndex == s.myIndex
      && forall kind, v :: v in Pending(t, kind) <==> v in Pending(s, kind) && v.height > s.headNumber
  {
    hide Drain, CoordInv;
    ActiveCoordInv(prim, s);
    TimeoutKeepsInv(ActiveCoord(s));
    TimeoutFrame(prim, s);
    IdleDrain(s.(coord := Some(AfterTimeout(ActiveCoord(s))), proposal := None));
    forall kind ensures Pending(AfterTickTimeout(s), kind) == NotStale(Pending(s, kind), s.headNumber) {
      match kind
      case Prevote =>
      case Precommit =>
    }
  }

  /** A node whose clock fires before the commit is in the next round of the same height, awaiting a proposal, and has
      sent and committed nothing. */
  lemma ClockOpensNextRound(cfg: Config, n: Node)
    requires EngineInv(cfg.prim, n.engine)
    requires !ActiveCoord(n.engine).stage.Done? && ActiveCoord(n.engine).round < U32_MAX
    ensures n.engine.vs.Valid() && ActiveCoord(n.engine).vs.Valid()
    ensures var c := ActiveCoord(n.engine);
      var o := NodeStep(cfg, n, ClockFired);
      && o.out == [] && o.commits == [] && o.node.flags == n.flags && o.node.harvested == n.harvested
      && o.node.engine.coord == Some(Coord(c.height, c.round + 1, c.vs, c.seed, NoProposal, c.locked))
  {
    hide AfterTickTimeout;
    ActiveCoordInv(cfg.prim, n.engine);
    TimeoutMovesOn(cfg.prim, n.engine);
  }

  /** Without a proposal nothing can be counted, and draining only drops stale votes. */
  lemma IdleDrain(s: EngineState)
    requires s.coord.Some? && s.coord.value.stage.NoProposal?
    ensures Drain(s) == DropStale(s)
  {
    var t := DropStale(s);
    NothingCounts(t.coord.value, Prevote, t.pendingPrevotes);
    NothingCounts(t.coord.value, Precommit, t.pendingPrecommits);
  }

  lemma {:induction false} NothingCounts(c: Coord, kind: VoteKind, votes: seq<Vote>)
    requires c.stage.NoProposal?
    ensures Feed(c, kind, votes) == Fed(c, votes, false)
  {
    if votes != [] {
      NothingCounts(c, kind, votes[..|votes| - 1]);
      assert votes == votes[..|votes| - 1] + [votes[|votes| - 1]];
    }
  }

  /** In the round a timeout opens, the proposal of the validator drawn for that round is accepted. */
  lemma NextLeaderIsAccepted(prim: Primitives, s: EngineState, p: Proposal, i: nat)
    requires EngineInv(prim, s) && !ActiveCoord(s).stage.Done? && ActiveCoord(s).round < U32_MAX
    requires ActiveCoord(s).vs.Valid()
    requires var c := ActiveCoord(s);
      ProvesDraw(prim, c.(round := c.round + 1, stage := NoProposal), p.proof, i)
    ensures ActiveCoord(AfterTickTimeout(s)).vs.Valid()
    ensures var (u, r) := RemoteProposal(prim, AfterTickTimeout(s), p);
      && r == Ok(()) && u.proposal == Some(p) && u.coord.Some? && u.coord.value.round == ActiveCoord(s).round + 1
      && !u.coord.value.stage.NoProposal? && u.coord.value.stage.block == HashOf(prim, p.block)
  {
    hide AfterTickTimeout, ProofOk, Drain, CoordInv;
    TimeoutMovesOn(prim, s);
    TickTimeoutKeepsInv(prim, s);
    var t := AfterTickTimeout(s);
    ActiveCoordInv(prim, t);
    ProposalAcceptedIff(prim, ActiveCoord(t), HashOf(prim, p.block), p.proof);
    assert ProvesDraw(prim, ActiveCoord(t), p.proof, i);
    TakesProposal(prim, t, p);
  }

  // ---------------------------------------------------------------------------------------
  // The leader proposes
  // ---------------------------------------------------------------------------------------

  /** The block a node builds on its head for the coordinator's height, with its own proof. */
  function OwnBlock(cfg: Config, s: EngineState, c: Coord, body: Bytes): Block {
    var proof := cfg.prove(c.height, c.round, s.seed);
    Block(Header(s.headHash, c.height, s.headTimestamp + cfg.slotSeconds, proof.vrfOutput, cfg.coinbase,
                 cfg.prim.transactionsRoot(body)), body)
  }

  function OwnProposal(cfg: Config, s: EngineState, c: Coord, body: Bytes): Message {
    ProposalMsg(c.height, c.round, cfg.prim.headerHash(OwnBlock(cfg, s, c, body).header),
                cfg.prove(c.height, c.round, s.seed), cfg.coinbase, cfg.prim.encodeBody(body))
  }

  /** The node holds the draw at the coordinator's position and its own proof says so. */
  predicate MayPropose(cfg: Config, n: Node)
    requires ActiveCoord(n.engine).vs.Valid()
  {
    var c := ActiveCoord(n.engine);
    ProvesDraw(cfg.prim, c, cfg.prove(c.height, c.round, n.engine.seed), n.engine.myIndex)
  }

  lemma ProposesIff(cfg: Config, n: Node, body: Bytes)
    requires EngineInv(cfg.prim, n.engine)
    requires ActiveCoord(n.engine).vs.Valid() && ActiveCoord(n.engine).stage.NoProposal?
    ensures var o := Propose(cfg, n, body);
      var c := ActiveCoord(n.engine);
      var block := OwnBlock(cfg, n.engine, c, body);
      if MayPropose(cfg, n)
      then o.out == [OwnProposal(cfg, n.engine, c, body)]
           && o.node.flags == n.flags.(proposed := Some(Position(c.height, c.round)), lastProposal := Some(o.out[0]))
           && o.node.engine == n.engine.(
                coord := Some(c.(stage := CollectingPrevotes(cfg.prim.headerHash(block.header), 0))),
                proposal := Some(Proposal(block, cfg.prove(c.height, c.round, n.engine.seed))))
      else o.out == [] && o.node.flags == n.flags && o.node.engine == n.engine.(coord := Some(c))
  {
    hide HoldsDraw, LeaderIndex;
    ActiveCoordInv(cfg.prim, n.engine);
    var c := ActiveCoord(n.engine);
    LeaderHoldsDraw(cfg.prim, c.vs, c.height, c.round, c.seed, n.engine.myIndex);
  }

  /** Why a node's own proposal is refused: another validator holds the draw, a proposal is held already, or its proof
      does not verify. */
  lemma RefusedProposalSaysWhy(cfg: Config, s: EngineState, body: Bytes, leader: nat)
    requires ActiveCoord(s).vs.Valid()
    requires var c := ActiveCoord(s); HoldsDraw(cfg.prim, c.vs, c.height, c.round, c.seed, leader)
    requires AfterCastProposal(cfg, s, body).1.Err?
    ensures var c := ActiveCoord(s);
      AfterCastProposal(cfg, s, body).1.error ==
      if leader != s.myIndex then NotLeader(c.round, leader)
      else if !c.stage.NoProposal? then WrongPhase(Phase.AwaitingProposal, PhaseOf(c.stage))
      else InvalidVrfProof
  {
    hide HoldsDraw, LeaderIndex;
    var c := ActiveCoord(s);
    LeaderHoldsDraw(cfg.prim, c.vs, c.height, c.round, c.seed, leader);
  }

  /** On a tick without a coordinator, the validator drawn for round 0 of the next height sends its proposal, once,
      and anyone else sends nothing. */
  lemma LeaderOpensTheHeight(cfg: Config, n: Node, body: Bytes)
    requires EngineInv(cfg.prim, n.engine) && n.engine.coord.None?
    ensures n.engine.vs.Valid() && ActiveCoord(n.engine).vs.Valid()
    ensures Drive(cfg, n, body).out ==
      if MayPropose(cfg, n)
      then [OwnProposal(cfg, n.engine, NewCoord(n.engine.headNumber + 1, n.engine.seed, n.engine.vs), body)] else []
  {
    hide HoldsDraw, LeaderIndex, Propose;
    ActiveCoordInv(cfg.prim, n.engine);
    var s := n.engine;
    LeaderHoldsDraw(cfg.prim, s.vs, s.headNumber + 1, 0, s.seed, s.myIndex);
    ProposesIff(cfg, n, body);
  }

  /** A node that has just started proposes the first block on its genesis exactly if the draw from the initial seed for
      the first height and round 0 falls to its index and its proof shows it. */
  lemma FirstBlockIsProposed(cfg: Config, vs: ValidatorSet, index: nat, seed: Bytes, genesis: Block, body: Bytes)
    requires vs.Valid()
    ensures var n := FreshNode(cfg, vs, index, seed, genesis);
      && n.engine.vs.Valid() && ActiveCoord(n.engine).vs.Valid()
      && var h, t := genesis.header.number + 1, genesis.header.timestamp + cfg.slotSeconds;
         var proof := cfg.prove(h, 0, seed);
         var header := Header(cfg.prim.headerHash(genesis.header), h, t, proof.vrfOutput, cfg.coinbase,
                              cfg.prim.transactionsRoot(body));
         Drive(cfg, n, body).out ==
         if ProvesDraw(cfg.prim, NewCoord(h, seed, vs), proof, index)
         then [ProposalMsg(h, 0, cfg.prim.headerHash(header), proof, cfg.coinbase, cfg.prim.encodeBody(body))]
         else []
  {
    hide Drive;
    LeaderOpensTheHeight(cfg, FreshNode(cfg, vs, index, seed, genesis), body);
  }

  /** In a round without a proposal, the validator drawn for it sends its proposal, unless it has proposed at this
      position; whatever it last proposed is repeated. */
  lemma LeaderOpensTheRound(cfg: Config, n: Node, body: Bytes)
    requires EngineInv(cfg.prim, n.engine) && n.engine.coord.Some? && n.engine.coord.value.stage.NoProposal?
    ensures n.engine.vs.Valid() && ActiveCoord(n.engine).vs.Valid()
    ensures var c := n.engine.coord.value;
      Drive(cfg, n, body).out ==
      if MayPropose(cfg, n) && n.flags.proposed != Some(Position(c.height, c.round))
      then [OwnProposal(cfg, n.engine, c, body), OwnProposal(cfg, n.engine, c, body)]
      else if n.flags.lastProposal.Some? then [n.flags.lastProposal.value] else []
  {
    hide HoldsDraw, LeaderIndex, Propose;
    ActiveCoordInv(cfg.prim, n.engine);
    var c := n.engine.coord.value;
    LeaderHoldsDraw(cfg.prim, c.vs, c.height, c.round, c.seed, n.engine.myIndex);
    ProposesIff(cfg, n, body);
  }

  // ---------------------------------------------------------------------------------------
  // Everyone votes
  // ---------------------------------------------------------------------------------------

  /** The phase of the coordinator that collects votes of this kind. */
  predicate Collects(c: Coord, kind: VoteKind) {
    match kind
    case Prevote => c.stage.CollectingPrevotes?
    case Precommit => c.stage.CollectingPrecommits?
  }

  /** The node's key is that of its index, and its vote has not been counted. */
  predicate MayVote(cfg: Config, s: EngineState, kind: VoteKind)
    requires s.coord.Some?
  {
    && s.myIndex < s.coord.value.vs.Size() && s.coord.value.vs.validators[s.myIndex].blsKey == cfg.blsKey
    && !Bit(VotersOf(s.coord.value, kind), s.myIndex)
  }

  /** The node's vote for the block its coordinator holds. */
  function OwnVote(cfg: Config, s: EngineState, kind: VoteKind): Message
    requires s.coord.Some? && !s.coord.value.stage.NoProposal?
  {
    var c := s.coord.value;
    VoteMsg(kind, Vote(c.stage.block, c.height, c.round, s.myIndex,
                       Signature(multiset{(cfg.blsKey, Statement(kind, c.stage.block, c.height, c.round))})))
  }

  function Optional(m: Option<Message>): seq<Message> {
    if m.Some? then [m.value] else []
  }

  lemma CastsIff(cfg: Config, s: EngineState, kind: VoteKind)
    requires s.coord.Some? && Collects(s.coord.value, kind)
    ensures var (t, r) := AfterCastVote(cfg, s, kind);
      if MayVote(cfg, s, kind)
      then r.Ok? && VoteMsg(kind, r.value) == OwnVote(cfg, s, kind) && t.coord.Some? && t == s.(coord := t.coord)
           && Members(VotersOf(t.coord.value, kind)) == Members(VotersOf(s.coord.value, kind)) + {s.myIndex}
      else r.Err? && t == s
  {
    var c := s.coord.value;
    var v := SignVote(cfg.blsKey, VotedOn(c, kind), s.myIndex);
    SetBitMembers(c.stage.voters, s.myIndex);
    if s.myIndex < c.vs.Size() {
      var key := c.vs.validators[s.myIndex].blsKey;
      assert multiset{(cfg.blsKey, VotedOn(c, kind))} == multiset{(key, VotedOn(c, kind))} ==> key == cfg.blsKey by {
        assert (cfg.blsKey, VotedOn(c, kind)) in multiset{(cfg.blsKey, VotedOn(c, kind))};
      }
    }
  }

  /** Why a node's own vote is refused. */
  lemma RefusedVoteSaysWhy(cfg: Config, s: EngineState, kind: VoteKind)
    requires AfterCastVote(cfg, s, kind).1.Err?
    ensures var error := AfterCastVote(cfg, s, kind).1.error;
      if s.coord.None? then error == NoActiveCoordinator
      else
        var c := s.coord.value;
        if !Collects(c, kind)
        then error == WrongPhase(if kind.Prevote? then Phase.Prevoting else Phase.Precommitting, PhaseOf(c.stage))
        else if s.myIndex >= c.vs.Size() then error == ValidatorIndexOutOfBounds(s.myIndex, c.vs.Size())
        else if s.myIndex in Members(VotersOf(c, kind)) then error == DuplicateVote(s.myIndex)
        else error == InvalidBlsSignature
  {
  }

  /** In a voting phase a tick sends this node's vote for the block held, if it may vote and has not voted here, and
      then repeats the latest messages of the phase: the proposal and the PRE-VOTE while pre-voting, the PRE-VOTE and
      the PRE-COMMIT while pre-committing. */
  lemma VotesAreSent(cfg: Config, n: Node, body: Bytes, kind: VoteKind)
    requires EngineInv(cfg.prim, n.engine) && n.engine.coord.Some? && Collects(n.engine.coord.value, kind)
    ensures n.engine.vs.Valid() && ActiveCoord(n.engine).vs.Valid()
    ensures var c := n.engine.coord.value;
      var f := n.flags;
      var mine := OwnVote(cfg, n.engine, kind);
      var first := Optional(if kind.Prevote? then f.lastProposal else f.lastPrevote);
      Drive(cfg, n, body).out ==
      if MayVote(cfg, n.engine, kind) && VotedAt(f, kind) != Some(Position(c.height, c.round))
      then [mine] + first + [mine]
      else first + Optional(if kind.Prevote? then f.lastPrevote else f.lastPrecommit)
  {
    hide AfterCastVote, MayVote, OwnVote;
    ActiveCoordInv(cfg.prim, n.engine);
    CastsIff(cfg, n.engine, kind);
    match kind
    case Prevote =>
    case Precommit =>
  }

  // ---------------------------------------------------------------------------------------
  // Proposals that come too late, and bodies that do not belong
  // ---------------------------------------------------------------------------------------

  /** Once a proposal is held, another one for the same or an earlier round, or for a committed height, changes
      nothing. */
  lemma LateProposalChangesNothing(cfg: Config, n: Node, m: Message)
    requires EngineInv(cfg.prim, n.engine) && n.engine.coord.Some? && !n.engine.coord.value.stage.NoProposal?
    requires m.ProposalMsg? && m.height <= n.engine.headNumber + 1
    requires m.height == n.engine.headNumber + 1 ==> m.round <= n.engine.coord.value.round
    ensures n.engine.vs.Valid() && ActiveCoord(n.engine).vs.Valid()
    ensures Dispatch(cfg, n, m) == Quiet(n)
  {
    ActiveCoordInv(cfg.prim, n.engine);
  }

  /** A proposal for the next height takes its receiver to the proposal's round if that is later, whether or not the
      proposal is then accepted; it is never taken back to an earlier one. */
  lemma LaterRoundIsJoined(cfg: Config, n: Node, m: Message)
    requires EngineInv(cfg.prim, n.engine) && m.ProposalMsg? && m.height == n.engine.headNumber + 1
    ensures n.engine.vs.Valid() && ActiveCoord(n.engine).vs.Valid()
    ensures var c, d := ActiveCoord(n.engine), ActiveCoord(Dispatch(cfg, n, m).node.engine);
      && d.height == m.height && d.round == (if m.round > c.round then m.round else c.round)
      && (m.round > c.round && d.stage.NoProposal? ==> d == NewCoord(m.height, c.seed, c.vs).(round := m.round))
  {
    hide CoordInv, RemoteProposal, EngineInv;
    ActiveCoordInv(cfg.prim, n.engine);
    FastForwardKeepsInv(cfg.prim, n.engine, m.round);
    var s := if ShouldFastForward(n.engine, m.height, m.round) then FastForward(n.engine, m.round).0 else n.engine;
    ActiveCoordInv(cfg.prim, s);
    if cfg.prim.decodeBody(m.body).Some? {
      var p := Proposal(BuildBlock(cfg, s, m.height, m.proof, m.coinbase, cfg.prim.decodeBody(m.body).value), m.proof);
      ProposalStaysInRound(cfg.prim, s, p);
    }
  }

  lemma ProposalStaysInRound(prim: Primitives, s: EngineState, p: Proposal)
    requires EngineInv(prim, s) && ActiveCoord(s).vs.Valid()
    ensures var (t, r) := RemoteProposal(prim, s, p);
      && ActiveCoord(t).round == ActiveCoord(s).round && ActiveCoord(t).height == ActiveCoord(s).height
      && if r.Err? then ActiveCoord(t) == ActiveCoord(s) else !ActiveCoord(t).stage.NoProposal?
  {
    hide Drain, CoordInv, ProofOk;
    ActiveCoordInv(prim, s);
    AcceptedProposalInv(prim, s, p);
    var r := AfterProposal(prim, ActiveCoord(s), HashOf(prim, p.block), p.proof);
    if r.Ok? {
      DrainContinues(s.(coord := Some(r.value), proposal := Some(p)));
    }
  }

  /** The block a node takes from a message has the announced hash, and if that is the hash of a header, the body's
      root is the one in that header. */
  lemma BodyBelongsToHash(cfg: Config, n: Node, m: Message, h: Header)
    requires InjectiveHash(cfg.prim) && EngineInv(cfg.prim, n.engine)
    requires m.ProposalMsg? && m.block == cfg.prim.headerHash(h)
    ensures n.engine.vs.Valid() && ActiveCoord(n.engine).vs.Valid()
    ensures var p := Dispatch(cfg, n, m).node.engine.proposal;
      p == n.engine.proposal
      || (p.Some? && p.value.block.header == h && p.value.proof == m.proof
          && cfg.prim.decodeBody(m.body) == Some(p.value.block.body)
          && h.transactionsRoot == cfg.prim.transactionsRoot(p.value.block.body))
  {
    hide CoordInv, RemoteProposal, EngineInv, ShouldFastForward;
    ValidSet(cfg, n.engine);
    FastForwardKeepsInv(cfg.prim, n.engine, m.round);
    var s := if ShouldFastForward(n.engine, m.height, m.round) then FastForward(n.engine, m.round).0 else n.engine;
    ValidSet(cfg, s);
    if cfg.prim.decodeBody(m.body).Some? {
      var p := Proposal(BuildBlock(cfg, s, m.height, m.proof, m.coinbase, cfg.prim.decodeBody(m.body).value), m.proof);
      RemoteProposalFrame(cfg.prim, s, p);
    }
  }

  // ---------------------------------------------------------------------------------------
  // Rotation
  // ---------------------------------------------------------------------------------------

  /** The validator set can be replaced exactly while no round is active, by a set that has the new index; a refused
      rotation changes nothing. */
  lemma RotationAllowedIff(cfg: Config, s: EngineState, vs: ValidatorSet, index: nat)
    requires EngineInv(cfg.prim, s)
    ensures Rotate(s, vs, index).1.Ok? <==> index < vs.Size() && s.coord.None?
    ensures Rotate(s, vs, index).1.Err? ==> Rotate(s, vs, index).0 == s
  {
  }

  /** After a rotation nothing collected before remains, the first proposal of the validator drawn from the new set is
      accepted, and the node's own vote then counts under its new index if and only if that index carries its key. */
  lemma RotationTakesEffect(cfg: Config, s: EngineState, vs: ValidatorSet, index: nat, p: Proposal, leader: nat)
    requires EngineInv(cfg.prim, s) && vs.Valid() && index < vs.Size() && s.coord.None?
    requires ProvesDraw(cfg.prim, NewCoord(s.headNumber + 1, s.seed, vs), p.proof, leader)
    ensures var t := Rotate(s, vs, index).0;
      && Rotate(s, vs, index).1 == Ok(())
      && SameChain(s, t) && t.coord.None? && t.pendingPrevotes == [] && t.pendingPrecommits == []
      && ActiveCoord(t).vs == vs
      && var (u, r) := RemoteProposal(cfg.prim, t, p);
         && r == Ok(()) && u.coord.Some? && u.coord.value.stage == CollectingPrevotes(HashOf(cfg.prim, p.block), 0)
         && u.coord.value.vs == vs && u.myIndex == index
         && (AfterCastVote(cfg, u, Prevote).1.Ok? <==> vs.validators[index].blsKey == cfg.blsKey)
  {
    hide ProofOk, HoldsDraw;
    var t := Rotate(s, vs, index).0;
    var c := NewCoord(s.headNumber + 1, s.seed, vs);
    ProposalAcceptedIff(cfg.prim, c, HashOf(cfg.prim, p.block), p.proof);
    var u := t.(coord := Some(c.(stage := CollectingPrevotes(HashOf(cfg.prim, p.block), 0))), proposal := Some(p));
    DrainNothing(u);
    ZeroMembers();
    assert !Bit(0, index) by {
      assert index !in Members(0);
    }
    CastsIff(cfg, u, Prevote);
  }
}
