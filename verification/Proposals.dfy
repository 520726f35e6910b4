/** A proposal travels as hash, leader proof, coinbase and body; every follower at the same head rebuilds
    the leader's block from these and accepts it. */
module Proposals {
  import opened Crypto
  import opened Validators
  import opened Coordinator
  import opened Engine
  import opened Chain
  import opened Gossip

  /** Only the elected leader proposes, at the position it stands at, a block that extends its head by one
      slot, and the message it sends describes that block. */
  lemma LeaderProposes(cfg: Config, n: Node, body: Bytes)
    requires EngineInv(cfg.prim, n.engine) && ActiveCoord(n.engine).vs.Valid()
    requires Propose(cfg, n, body).out != []
    ensures var c := ActiveCoord(n.engine);
      var o := Propose(cfg, n, body);
      && LeaderIndex(cfg.prim, c.vs, c.height, c.round, c.seed) == n.engine.myIndex
      && o.node.engine.proposal.Some?
      && var p := o.node.engine.proposal.value;
         && WellBuilt(n.engine, p) && ProofOk(cfg.prim, c, p.proof) && p.block.body == body
         && p.block.header.timestamp == n.engine.headTimestamp + cfg.slotSeconds
         && o.out == [ProposalMessage(cfg, p, Position(c.height, c.round))]
         && o.node.engine.coord == Some(c.(stage := CollectingPrevotes(HashOf(cfg.prim, p.block), 0)))
  {
    ActiveCoordInv(cfg.prim, n.engine);
  }

  lemma LeaderBuilds(cfg: Config, n: Node, body: Bytes)
    requires ActiveCoord(n.engine).vs.Valid() && Propose(cfg, n, body).out != []
    ensures Propose(cfg, n, body).node.engine.proposal.Some?
    ensures var p := Propose(cfg, n, body).node.engine.proposal.value;
      p.block == BuildBlock(cfg, n.engine, ActiveCoord(n.engine).height, p.proof, cfg.coinbase, body)
  {
  }

  /** The follower has not accepted a proposal at `round` and has not passed it. */
  predicate CanStillAccept(s: EngineState, round: nat) {
    var c := ActiveCoord(s);
    c.round < round || (c.round == round && c.stage.NoProposal?)
  }

  /** A follower with the leader's head and validator set, at the leader's round or an earlier one, whatever it
      was doing there, ends up at the leader's round with exactly the leader's block and proof. */
  lemma FollowersRebuildTheBlock(leader: Config, follower: Config, l: Node, f: Node, body: Bytes)
    requires leader.prim == follower.prim && leader.slotSeconds == follower.slotSeconds
    requires EngineInv(leader.prim, l.engine) && EngineInv(leader.prim, f.engine)
    requires ActiveCoord(l.engine).vs.Valid() && ActiveCoord(f.engine).vs.Valid()
    requires HeadOf(f.engine) == HeadOf(l.engine) && f.engine.vs == l.engine.vs
    requires CanStillAccept(f.engine, ActiveCoord(l.engine).round)
    requires leader.prim.decodeBody(leader.prim.encodeBody(body)) == Some(body)
    requires Propose(leader, l, body).out != []
    ensures var o := Propose(leader, l, body);
      var t := Dispatch(follower, f, o.out[0]).node.engine;
      && t.proposal == o.node.engine.proposal
      && t.coord.Some? && t.coord.value.round == ActiveCoord(l.engine).round
      && !t.coord.value.stage.NoProposal?
      && t.coord.value.stage.block == HashOf(leader.prim, o.node.engine.proposal.value.block)
  {
    hide EngineInv, CoordInv, RemoteProposal, ProofOk, Propose, LeaderIndex, ShouldFastForward, FastForward, HeadOf;
    var c := ActiveCoord(l.engine);
    LeaderProposes(leader, l, body);
    LeaderBuilds(leader, l, body);
    var p := Propose(leader, l, body).node.engine.proposal.value;
    ActiveCoordInv(leader.prim, l.engine);
    SameHead(l.engine, f.engine);
    ReadyAt(leader.prim, f.engine, c.height, c.round);
    var s := if ShouldFastForward(f.engine, c.height, c.round) then FastForward(f.engine, c.round).0 else f.engine;
    SameHead(l.engine, s);
    SameProof(leader.prim, c, ActiveCoord(s), p.proof);
    TakesProposal(leader.prim, s, p);
  }

  lemma SameHead(s: EngineState, t: EngineState)
    requires HeadOf(s) == HeadOf(t)
    ensures s.headHash == t.headHash && s.headNumber == t.headNumber
    ensures s.headTimestamp == t.headTimestamp && s.seed == t.seed
  {
  }

  /** After the jump, if one is due, the follower awaits a proposal at the leader's round. */
  lemma ReadyAt(prim: Primitives, f: EngineState, height: nat, round: nat)
    requires EngineInv(prim, f) && height == f.headNumber + 1 && CanStillAccept(f, round)
    ensures var s := if ShouldFastForward(f, height, round) then FastForward(f, round).0 else f;
      && EngineInv(prim, s) && HeadOf(s) == HeadOf(f) && s.vs == f.vs
      && var c := ActiveCoord(s);
         && c.round == round && c.height == height && c.stage.NoProposal?
         && c.vs.Valid() && c.vs == f.vs && c.seed == f.seed
  {
    FastForwardKeepsInv(prim, f, round);
    ActiveCoordInv(prim, f);
  }

  lemma TakesProposal(prim: Primitives, s: EngineState, p: Proposal)
    requires EngineInv(prim, s) && ActiveCoord(s).vs.Valid()
    requires ActiveCoord(s).stage.NoProposal? && ProofOk(prim, ActiveCoord(s), p.proof)
    ensures var t := RemoteProposal(prim, s, p).0;
      && t.proposal == Some(p) && t.coord.Some? && t.coord.value.round == ActiveCoord(s).round
      && !t.coord.value.stage.NoProposal? && t.coord.value.stage.block == HashOf(prim, p.block)
  {
    hide ProofOk, Drain;
    ActiveCoordInv(prim, s);
    AcceptedProposalInv(prim, s, p);
    var c := ActiveCoord(s).(stage := CollectingPrevotes(HashOf(prim, p.block), 0));
    DrainContinues(s.(coord := Some(c), proposal := Some(p)));
  }

  lemma SameProof(prim: Primitives, c: Coord, d: Coord, proof: LeaderProof)
    requires c.vs.Valid() && d.vs == c.vs && d.height == c.height && d.round == c.round && d.seed == c.seed
    ensures ProofOk(prim, c, proof) == ProofOk(prim, d, proof)
  {
  }
}
